/** The dynamic batcher as atomic steps of any number of submitters, one worker and one drainer. A timed wait may
    end at any moment, and a weak compare-exchange may fail for no reason. */
module Batcher {

  // ---------------------------------------------------------------- states and steps

  /** Where the worker is. It holds the lock only inside the step that leaves `Waiting`. */
  datatype Worker =
    | Waiting
    | InHandler(batch: seq<int>)
    | AddBatch(take: nat)
    | AddItems(take: nat)
    | LoadLargest(take: nat)
    | Swapping(take: nat, prev: nat)
    | Exited

  datatype Drainer = NotCalled | Joining | Joined | Flushing(rest: seq<int>) | Returned

  /** A handler call that has returned, and whether the worker made it. */
  datatype Fired = Fired(batch: seq<int>, byWorker: bool)

  /** Shared fields of the original, the two program counters, and two logs: every request accepted and every
      handler call made. */
  datatype State = State(
    maxBatch: nat, pending: seq<int>, stopping: bool, batches: nat, items: nat, largest: nat,
    worker: Worker, drainer: Drainer, accepted: seq<int>, log: seq<Fired>)

  function Initial(maxBatch: int): State {
    State(if maxBatch < 1 then 1 else maxBatch, [], false, 0, 0, 0, Waiting, NotCalled, [], [])
  }

  datatype Action =
    | Submit(id: int)
    | Wake
    | EndHandler
    | CountBatch
    | CountItems
    | ReadLargest
    | TrySwap(spurious: bool)
    | CallDrain
    | Join
    | TakeRest
    | FlushBatch
    | FinishDrain

  predicate Enabled(s: State, a: Action) {
    match a
    case Submit(_) => true
    case Wake => s.worker == Waiting
    case EndHandler => s.worker.InHandler?
    case CountBatch => s.worker.AddBatch?
    case CountItems => s.worker.AddItems?
    case ReadLargest => s.worker.LoadLargest?
    case TrySwap(_) => s.worker.Swapping?
    case CallDrain => s.drainer == NotCalled
    case Join => s.drainer == Joining && s.worker == Exited
    case TakeRest => s.drainer == Joined
    case FlushBatch => s.drainer.Flushing? && s.drainer.rest != []
    case FinishDrain => s.drainer == Flushing([])
  }

  function Min(a: nat, b: nat): nat {
    if a < b then a else b
  }

  function Max(a: nat, b: nat): nat {
    if a < b then b else a
  }

  /** Under the lock: nothing queued means leave or wait again, otherwise the front of the queue is taken. */
  function Woken(s: State): State {
    if s.pending == [] then
      if s.stopping then s.(worker := Exited) else s
    else
      var take := Min(|s.pending|, s.maxBatch);
      s.(pending := s.pending[take..], worker := InHandler(s.pending[..take]))
  }

  /** One round of the loop `while (take > prev && !compare_exchange_weak(prev, take))`. */
  function Swapped(s: State, spurious: bool): State
    requires s.worker.Swapping?
  {
    var take, prev := s.worker.take, s.worker.prev;
    if take <= prev then s.(worker := Waiting)
    else if s.largest == prev && !spurious then s.(largest := take, worker := Waiting)
    else s.(worker := Swapping(take, s.largest))
  }

  function Flushed(s: State): State
    requires s.drainer.Flushing? && s.drainer.rest != []
  {
    var rest := s.drainer.rest;
    var take := Min(|rest|, s.maxBatch);
    s.(drainer := Flushing(rest[take..]), log := s.log + [Fired(rest[..take], false)],
       batches := s.batches + 1, items := s.items + take, largest := Max(s.largest, take))
  }

  function Apply(s: State, a: Action): State
    requires Enabled(s, a)
  {
    match a
    case Submit(id) => if s.stopping then s else s.(pending := s.pending + [id], accepted := s.accepted + [id])
    case Wake => Woken(s)
    case EndHandler => s.(log := s.log + [Fired(s.worker.batch, true)], worker := AddBatch(|s.worker.batch|))
    case CountBatch => s.(batches := s.batches + 1, worker := AddItems(s.worker.take))
    case CountItems => s.(items := s.items + s.worker.take, worker := LoadLargest(s.worker.take))
    case ReadLargest => s.(worker := Swapping(s.worker.take, s.largest))
    case TrySwap(spurious) => Swapped(s, spurious)
    case CallDrain => s.(stopping := true, drainer := Joining)
    case Join => s.(drainer := Joined)
    case TakeRest => s.(pending := [], drainer := Flushing(s.pending))
    case FlushBatch => Flushed(s)
    case FinishDrain => s.(drainer := Returned)
  }

  // ---------------------------------------------------------------- the invariant

  function Flat(log: seq<Fired>): seq<int> {
    if log == [] then [] else Flat(log[..|log| - 1]) + log[|log| - 1].batch
  }

  function LargestOf(log: seq<Fired>): nat {
    if log == [] then 0 else Max(LargestOf(log[..|log| - 1]), |log[|log| - 1].batch|)
  }

  function InFlight(s: State): seq<int> {
    if s.worker.InHandler? then s.worker.batch else []
  }

  function Rest(s: State): seq<int> {
    if s.drainer.Flushing? then s.drainer.rest else []
  }

  /** First in, first out, nothing lost and nothing twice. */
  predicate Conserved(s: State) {
    s.accepted == Flat(s.log) + InFlight(s) + s.pending + Rest(s)
  }

  predicate GoodBatch(s: State, f: Fired) {
    1 <= |f.batch| <= s.maxBatch && f.byWorker
  }

  predicate LogOk(s: State) {
    forall i | 0 <= i < |s.log| :: GoodBatch(s, s.log[i])
  }

  /** The size of the batch between handler and counters, once its handler returned. */
  function Take(w: Worker): nat {
    match w
    case AddBatch(t) => t
    case AddItems(t) => t
    case LoadLargest(t) => t
    case Swapping(t, _) => t
    case _ => 0
  }

  /** The last batch of the log is the one being counted. */
  predicate Counting(s: State) {
    Take(s.worker) > 0 ==> s.log != [] && |s.log[|s.log| - 1].batch| == Take(s.worker)
  }

  /** Log entries without the newest `n`. */
  function Before(log: seq<Fired>, n: nat): seq<Fired> {
    if n <= |log| then log[..|log| - n] else []
  }

  predicate CountersOk(s: State) {
    && s.batches == |Before(s.log, if s.worker.AddBatch? then 1 else 0)|
    && s.items == |Flat(Before(s.log, if s.worker.AddBatch? || s.worker.AddItems? then 1 else 0))|
    && s.largest == LargestOf(Before(s.log, if Take(s.worker) > 0 then 1 else 0))
    && (s.worker.Swapping? ==> s.worker.prev == s.largest)
  }

  predicate ControlOk(s: State) {
    && s.maxBatch >= 1
    && (s.stopping <==> s.drainer != NotCalled)
    && (s.worker == Exited ==> s.stopping && s.pending == [])
    && (s.drainer == Joined || s.drainer.Flushing? || s.drainer == Returned ==> s.worker == Exited)
    && Rest(s) == []
    && (s.worker.InHandler? ==> 1 <= |s.worker.batch| <= s.maxBatch)
    && (s.worker.AddBatch? || s.worker.AddItems? || s.worker.LoadLargest? || s.worker.Swapping? ==> Take(s.worker) > 0)
  }

  ghost predicate Inv(s: State) {
    ControlOk(s) && Conserved(s) && LogOk(s) && Counting(s) && CountersOk(s)
  }

  lemma InitialInv(maxBatch: int)
    ensures Inv(Initial(maxBatch))
  {
  }

  lemma ControlKept(s: State, a: Action)
    requires ControlOk(s) && Enabled(s, a)
    ensures ControlOk(Apply(s, a))
  {
  }

  /** The flush loop of `drain` never has anything to flush. */
  lemma NoFlush(s: State)
    requires ControlOk(s)
    ensures !Enabled(s, FlushBatch)
  {
  }

  lemma FlatSnoc(log: seq<Fired>, f: Fired)
    ensures Flat(log + [f]) == Flat(log) + f.batch
    ensures LargestOf(log + [f]) == Max(LargestOf(log), |f.batch|)
  {
    assert (log + [f])[..|log|] == log;
  }

  /** Moving the borders between handled, in flight and waiting keeps their concatenation. */
  lemma Borders(done: seq<int>, flight: seq<int>, queue: seq<int>, take: nat, id: int)
    requires take <= |queue|
    ensures done + flight + queue + [] + [id] == done + flight + (queue + [id]) + []
    ensures done + [] + queue + [] == done + queue[..take] + queue[take..] + []
    ensures done + flight + queue + [] == (done + flight) + [] + queue + []
  {
    assert queue == queue[..take] + queue[take..];
  }

  lemma ConservedKept(s: State, a: Action)
    requires ControlOk(s) && Conserved(s) && Enabled(s, a)
    ensures Conserved(Apply(s, a))
  {
    hide Flat, Min;
    if a == FlushBatch { NoFlush(s); }
    var take := Min(|s.pending|, s.maxBatch);
    MinSmall(|s.pending|, s.maxBatch);
    Borders(Flat(s.log), InFlight(s), s.pending, take, if a.Submit? then a.id else 0);
    if a == EndHandler { FlatSnoc(s.log, Fired(s.worker.batch, true)); }
  }

  lemma MinSmall(a: nat, b: nat)
    ensures Min(a, b) <= a && Min(a, b) <= b
  {
  }

  lemma LogKept(s: State, a: Action)
    requires ControlOk(s) && LogOk(s) && Enabled(s, a)
    ensures LogOk(Apply(s, a))
  {
    hide Min;
    if a == FlushBatch { NoFlush(s); }
    var s' := Apply(s, a);
    forall i | 0 <= i < |s'.log|
      ensures GoodBatch(s', s'.log[i])
    {
      if i < |s.log| { assert GoodBatch(s, s.log[i]); }
    }
  }

  lemma NewestCounted(log: seq<Fired>)
    ensures Before(log, 0) == log
    ensures log != [] ==>
              var f := log[|log| - 1];
              && |log| == |Before(log, 1)| + 1 && |Flat(log)| == |Flat(Before(log, 1))| + |f.batch|
              && LargestOf(log) == Max(LargestOf(Before(log, 1)), |f.batch|)
  {
    if log != [] {
      assert log == log[..|log| - 1] + [log[|log| - 1]];
      FlatSnoc(log[..|log| - 1], log[|log| - 1]);
    }
  }

  lemma NewestIs(log: seq<Fired>, f: Fired)
    ensures Before(log + [f], 1) == log && (log + [f])[|log + [f]| - 1] == f
  {
  }

  lemma CountersKept(s: State, a: Action)
    requires ControlOk(s) && Counting(s) && CountersOk(s) && Enabled(s, a)
    ensures Counting(Apply(s, a)) && CountersOk(Apply(s, a))
  {
    hide Flat, LargestOf, Min, Before;
    if a == FlushBatch { NoFlush(s); }
    NewestCounted(s.log);
    if a == EndHandler { NewestIs(s.log, Fired(s.worker.batch, true)); }
  }

  lemma InvKept(s: State, a: Action)
    requires Inv(s) && Enabled(s, a)
    ensures Inv(Apply(s, a))
  {
    hide Apply, ControlOk, Conserved, LogOk, Counting, CountersOk;
    ControlKept(s, a);
    ConservedKept(s, a);
    LogKept(s, a);
    CountersKept(s, a);
  }
}
