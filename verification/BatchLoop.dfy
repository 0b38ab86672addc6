/** The loop of `generate_batch` over mutable request state, against the pass-by-pass definition. */
module BatchLoop {
  import opened Common
  import opened Generation
  import opened GenerationBatch

  /** Per-request state inside a batch; `id` names its sequence in the runtime. */
  class Active<P, S> {
    const req: Request<P>
    const prompt: seq<int>
    const id: nat
    var fed: nat
    var next: int
    var sampler: S
    var done: bool
    var tokens: seq<int>
    var finish: Finish
    var text: string

    constructor (req: Request<P>, prompt: seq<int>, id: nat, sampler: S)
      ensures this.req == req && this.prompt == prompt && this.id == id
      ensures fed == 0 && next == -1 && this.sampler == sampler && !done && tokens == [] && finish == Length
    {
      this.req, this.prompt, this.id := req, prompt, id;
      this.fed, this.next, this.sampler, this.done := 0, -1, sampler, false;
      this.tokens, this.finish, this.text := [], Length, "";
    }

    ghost function Shot(held: map<nat, seq<int>>): Snap<S>
      reads this
    {
      Snap(fed, next, sampler, done, tokens, finish, if id in held then held[id] else [])
    }

    /** The request's prompt is the encoded one, and its sequence is alive until it is done. */
    ghost predicate Linked<L>(m: Setup<P, L, S>, held: map<nat, seq<int>>)
      reads this
    {
      prompt == Prompt(m, req) && (done <==> id !in held) && (done ==> text == m.decode(tokens))
    }
  }

  /** `finish`: records the reason, returns the sequence and renders the text. */
  method Close<P, L, S>(m: Setup<P, L, S>, rt: Runtime, a: Active<P, S>, r: Finish)
    requires rt.Valid() && !a.done && a.Linked(m, rt.held)
    modifies a, rt
    ensures rt.Valid() && rt.held == old(rt.held) - {a.id}
    ensures a.Shot(rt.held) == Finished(old(a.Shot(rt.held)), r) && a.Linked(m, rt.held)
  {
    a.done := true;
    a.finish := r;
    rt.Drop(a.id);
    a.text := m.decode(a.tokens);
  }

  /** What one row of logits does to its request. */
  method Advance<P, L, S>(m: Setup<P, L, S>, rt: Runtime, a: Active<P, S>, row: L)
    requires rt.Valid() && !a.done && a.Linked(m, rt.held)
    modifies a, rt
    ensures rt.Valid() && (rt.held == old(rt.held) || rt.held == old(rt.held) - {a.id})
    ensures a.Shot(rt.held) == AfterLogits(m, a.req, old(a.Shot(rt.held)), row) && a.Linked(m, rt.held)
  {
    var prefilling := a.fed < |a.prompt|;
    if prefilling {
      a.fed := a.fed + 1;
      if a.fed < |a.prompt| {
        return;
      }
    }
    if |a.tokens| >= a.req.maxNew {
      Close(m, rt, a, Length);
      return;
    }
    var drawn := m.sample(a.sampler, row);
    var next := drawn.0;
    a.sampler := drawn.1;
    if next == m.eos {
      Close(m, rt, a, EndOfSequence);
      return;
    }
    a.tokens := a.tokens + [next];
    a.next := next;
    if |a.tokens| >= a.req.maxNew {
      Close(m, rt, a, Length);
    }
  }

  // ---------------------------------------------------------------- the whole batch

  ghost predicate Apart<P, S>(active: seq<Active<P, S>>) {
    forall i, j | 0 <= i < j < |active| :: active[i].id != active[j].id
  }

  ghost function IdsOf<P, S>(active: seq<Active<P, S>>): set<nat> {
    set i | 0 <= i < |active| :: active[i].id
  }

  /** The runtime holds the sequences of the unfinished requests and those of `base`. */
  ghost predicate World<P, L, S>(m: Setup<P, L, S>, held: map<nat, seq<int>>, active: seq<Active<P, S>>,
                                 base: map<nat, seq<int>>)
    reads active
  {
    && Apart(active)
    && IdsOf(active) !! base.Keys
    && held - IdsOf(active) == base
    && forall i | 0 <= i < |active| :: active[i].Linked(m, held)
  }

  /** The elements whose flag is down, in order. */
  ghost function Select<T>(xs: seq<T>, flags: seq<bool>): seq<T>
    requires |xs| == |flags|
  {
    if xs == [] then []
    else
      var n := |xs| - 1;
      Select(xs[..n], flags[..n]) + if flags[n] then [] else [xs[n]]
  }

  ghost function DoneFlags<P, S>(active: seq<Active<P, S>>): (flags: seq<bool>)
    reads active
    ensures |flags| == |active|
    ensures forall i | 0 <= i < |active| :: flags[i] == active[i].done
  {
    seq(|active|, i requires 0 <= i < |active| reads active => active[i].done)
  }

  /** The unfinished requests, in order. */
  ghost function Undone<P, S>(active: seq<Active<P, S>>): seq<Active<P, S>>
    reads active
  {
    Select(active, DoneFlags(active))
  }

  lemma SelectSnoc<T>(xs: seq<T>, flags: seq<bool>, x: T, flag: bool)
    requires |xs| == |flags|
    ensures Select(xs + [x], flags + [flag]) == Select(xs, flags) + if flag then [] else [x]
  {
    assert (xs + [x])[..|xs|] == xs && (flags + [flag])[..|xs|] == flags;
  }

  lemma {:induction false} SelectIs<T>(xs: seq<T>, flags: seq<bool>)
    requires |xs| == |flags|
    ensures |Select(xs, flags)| <= |xs|
    ensures forall x | x in Select(xs, flags) :: exists i :: 0 <= i < |xs| && xs[i] == x && !flags[i]
    ensures forall i | 0 <= i < |xs| && !flags[i] :: xs[i] in Select(xs, flags)
  {
    if xs != [] {
      var n := |xs| - 1;
      SelectIs(xs[..n], flags[..n]);
      forall i | 0 <= i < |xs| && !flags[i]
        ensures xs[i] in Select(xs, flags)
      {
        if i < n { assert xs[..n][i] in Select(xs[..n], flags[..n]); }
      }
      forall x | x in Select(xs, flags)
        ensures exists i :: 0 <= i < |xs| && xs[i] == x && !flags[i]
      {
        if x in Select(xs[..n], flags[..n]) {
          var i :| 0 <= i < n && xs[..n][i] == x && !flags[..n][i];
          assert xs[i] == x;
        } else {
          assert xs[n] == x;
        }
      }
    }
  }

  lemma {:induction false} SelectApart<P, S>(xs: seq<Active<P, S>>, flags: seq<bool>)
    requires |xs| == |flags| && Apart(xs)
    ensures Apart(Select(xs, flags))
  {
    if xs != [] {
      var n := |xs| - 1;
      SelectApart(xs[..n], flags[..n]);
      SelectIs(xs[..n], flags[..n]);
      var r := Select(xs[..n], flags[..n]);
      forall i | 0 <= i < |r|
        ensures r[i].id != xs[n].id
      {
        assert r[i] in r;
        var j :| 0 <= j < n && xs[..n][j] == r[i] && !flags[..n][j];
        assert xs[j] == r[i];
      }
    }
  }

  /** `batch` is `active` without its finished requests. */
  lemma UndoneFacts<P, S>(active: seq<Active<P, S>>, batch: seq<Active<P, S>>)
    requires batch == Undone(active) && Apart(active)
    ensures Apart(batch) && |batch| <= |active|
    ensures forall a | a in batch :: a in active && !a.done
    ensures forall a | a in active && !a.done :: a in batch
  {
    var flags := DoneFlags(active);
    SelectIs(active, flags);
    SelectApart(active, flags);
    hide Select;
    forall a | a in active && !a.done
      ensures a in batch
    {
      var i :| 0 <= i < |active| && active[i] == a;
      assert !flags[i];
    }
  }

  /** Collects the unfinished requests, both before and after the capacity check. */
  method KeepUndone<P, S>(active: seq<Active<P, S>>, ghost flags: seq<bool>) returns (batch: seq<Active<P, S>>)
    requires flags == DoneFlags(active)
    ensures batch == Select(active, flags) == Undone(active)
  {
    batch := [];
    for k := 0 to |active|
      invariant batch == Select(active[..k], flags[..k])
    {
      SelectSnoc(active[..k], flags[..k], active[k], flags[k]);
      assert active[..k + 1] == active[..k] + [active[k]] && flags[..k + 1] == flags[..k] + [flags[k]];
      if !active[k].done {
        batch := batch + [active[k]];
      }
    }
    assert active[..|active|] == active && flags[..|flags|] == flags;
  }

  /** Dropping another sequence leaves a request as it was. */
  lemma Untouched<P, L, S>(m: Setup<P, L, S>, a: Active<P, S>, held: map<nat, seq<int>>, held': map<nat, seq<int>>,
                           id: nat)
    requires a.id != id && (held' == held || held' == held - {id})
    ensures a.Shot(held') == a.Shot(held) && (a.Linked(m, held') <==> a.Linked(m, held))
  {
  }

  function CheckedShot<P, L, S>(m: Setup<P, L, S>, s: Snap<S>): Snap<S> {
    if |s.history| >= m.context then Finished(s, ContextFull) else s
  }

  /** Unfinished, apart, and each backed by its own sequence. */
  ghost predicate Ready<P, L, S>(m: Setup<P, L, S>, held: map<nat, seq<int>>, batch: seq<Active<P, S>>)
    reads batch
  {
    Apart(batch) && forall a | a in batch :: !a.done && a.Linked(m, held)
  }

  /** `seqs` and `tokens` are index-aligned with `batch`. */
  ghost predicate Aligned<P, S>(batch: seq<Active<P, S>>, seqs: seq<nat>, tokens: seq<int>)
    reads batch
  {
    && |batch| == |seqs| == |tokens|
    && forall k: nat | k < |batch| ::
         seqs[k] == batch[k].id && tokens[k] == TokenFor(batch[k].prompt, batch[k].fed, batch[k].next)
  }

  lemma AlignedSnoc<P, S>(batch: seq<Active<P, S>>, seqs: seq<nat>, tokens: seq<int>, a: Active<P, S>)
    requires Aligned(batch, seqs, tokens)
    ensures Aligned(batch + [a], seqs + [a.id], tokens + [TokenFor(a.prompt, a.fed, a.next)])
  {
  }

  method CheckOne<P, L, S>(m: Setup<P, L, S>, rt: Runtime, a: Active<P, S>) returns (full: bool)
    requires rt.Valid() && !a.done && a.Linked(m, rt.held)
    modifies a, rt
    ensures rt.Valid() && (rt.held == old(rt.held) || rt.held == old(rt.held) - {a.id})
    ensures a.Linked(m, rt.held) && a.Shot(rt.held) == CheckedShot(m, old(a.Shot(rt.held)))
    ensures full == a.done == (|old(rt.held)[a.id]| >= m.context) && (!full ==> unchanged(a) && unchanged(rt))
  {
    full := |rt.held[a.id]| >= m.context;
    if full {
      Close(m, rt, a, ContextFull);
    }
  }

  /** Closes the requests whose sequence is full and collects what the others feed to the step. */
  method CheckCapacity<P, L, S>(m: Setup<P, L, S>, rt: Runtime, batch: seq<Active<P, S>>)
    returns (seqs: seq<nat>, tokens: seq<int>, ghost flags: seq<bool>)
    requires rt.Valid() && Ready(m, rt.held, batch)
    modifies batch, rt
    ensures rt.Valid() && rt.held - IdsOf(batch) == old(rt.held) - IdsOf(batch)
    ensures forall a | a in batch :: a.Linked(m, rt.held) && a.Shot(rt.held) == CheckedShot(m, old(a.Shot(rt.held)))
    ensures flags == DoneFlags(batch) && Aligned(Select(batch, flags), seqs, tokens)
  {
    hide CheckedShot, Select, Active.Shot, Active.Linked, Aligned, TokenFor;
    seqs, tokens := [], [];
    NoneAligned<P, S>();
    flags := [];
    ghost var kept: seq<Active<P, S>> := [];
    SelectNone<Active<P, S>>();
    for j := 0 to |batch|
      invariant rt.Valid() && rt.held - IdsOf(batch) == old(rt.held) - IdsOf(batch)
      invariant forall i | 0 <= i < j ::
                  batch[i].Linked(m, rt.held) && batch[i].Shot(rt.held) == CheckedShot(m, old(batch[i].Shot(rt.held)))
      invariant forall i | j <= i < |batch| ::
                  !batch[i].done && batch[i].Linked(m, rt.held) && batch[i].Shot(rt.held) == old(batch[i].Shot(rt.held))
      invariant |flags| == j && forall i | 0 <= i < j :: flags[i] == batch[i].done
      invariant kept == Select(batch[..j], flags) && forall a | a in kept :: a in batch[..j]
      invariant Aligned(kept, seqs, tokens)
    {
      assert batch[..j + 1] == batch[..j] + [batch[j]];
      assert forall i | 0 <= i < j :: batch[i].id != batch[j].id;
      assert batch[j] !in kept;
      ghost var held := rt.held;
      var full := CheckOne(m, rt, batch[j]);
      forall i | 0 <= i < |batch| && i != j
        ensures batch[i].Shot(rt.held) == batch[i].Shot(held)
        ensures batch[i].Linked(m, rt.held) <==> batch[i].Linked(m, held)
      {
        Untouched(m, batch[i], held, rt.held, batch[j].id);
      }
      SelectSnoc(batch[..j], flags, batch[j], full);
      flags := flags + [full];
      if !full {
        AlignedSnoc(kept, seqs, tokens, batch[j]);
        seqs := seqs + [batch[j].id];
        tokens := tokens + [TokenFor(batch[j].prompt, batch[j].fed, batch[j].next)];
        kept := kept + [batch[j]];
      }
    }
    assert batch[..|batch|] == batch && flags == DoneFlags(batch);
  }

  lemma NoneAligned<P, S>()
    ensures var none: seq<Active<P, S>> := []; Aligned(none, [], [])
  {
  }

  lemma SelectNone<T>()
    ensures Select<T>([], []) == []
  {
  }

  /** Hands every request its own row. */
  method Deliver<P, L, S>(m: Setup<P, L, S>, rt: Runtime, batch: seq<Active<P, S>>, logits: seq<L>)
    requires rt.Valid() && Ready(m, rt.held, batch) && |logits| == |batch|
    modifies batch, rt
    ensures rt.Valid() && rt.held - IdsOf(batch) == old(rt.held) - IdsOf(batch)
    ensures forall i | 0 <= i < |batch| ::
              && batch[i].Linked(m, rt.held)
              && batch[i].Shot(rt.held) == AfterLogits(m, batch[i].req, old(batch[i].Shot(rt.held)), logits[i])
  {
    hide AfterLogits, Active.Shot, Active.Linked;
    for j := 0 to |batch|
      invariant rt.Valid() && rt.held - IdsOf(batch) == old(rt.held) - IdsOf(batch)
      invariant forall i | 0 <= i < j ::
                  && batch[i].Linked(m, rt.held)
                  && batch[i].Shot(rt.held) == AfterLogits(m, batch[i].req, old(batch[i].Shot(rt.held)), logits[i])
      invariant forall i | j <= i < |batch| ::
                  !batch[i].done && batch[i].Linked(m, rt.held) && batch[i].Shot(rt.held) == old(batch[i].Shot(rt.held))
    {
      ghost var held := rt.held;
      Advance(m, rt, batch[j], logits[j]);
      forall i | 0 <= i < |batch| && i != j
        ensures batch[i].Shot(rt.held) == batch[i].Shot(held)
        ensures batch[i].Linked(m, rt.held) <==> batch[i].Linked(m, held)
      {
        Untouched(m, batch[i], held, rt.held, batch[j].id);
      }
    }
  }

  /** The step extends exactly the sequences of the requests that take part in it. */
  lemma Stepped<P, L, S>(m: Setup<P, L, S>, a: Active<P, S>, held: map<nat, seq<int>>, held': map<nat, seq<int>>,
                         token: int)
    requires held.Keys == held'.Keys && a.id in held && held'[a.id] == held[a.id] + [token]
    ensures a.Shot(held') == a.Shot(held).(history := a.Shot(held).history + [token])
    ensures a.Linked(m, held') <==> a.Linked(m, held)
  {
  }

  lemma Bypassed<P, L, S>(m: Setup<P, L, S>, a: Active<P, S>, held: map<nat, seq<int>>, held': map<nat, seq<int>>)
    requires (a.id in held <==> a.id in held') && (a.id in held ==> held'[a.id] == held[a.id])
    ensures a.Shot(held') == a.Shot(held) && (a.Linked(m, held') <==> a.Linked(m, held))
  {
  }

  /** Room for one more token in every sequence of the batch. */
  ghost predicate Room<P, L, S>(m: Setup<P, L, S>, held: map<nat, seq<int>>, batch: seq<Active<P, S>>) {
    forall i | 0 <= i < |batch| :: batch[i].id in held && |held[batch[i].id]| < m.context
  }

  /** One pass over the requests whose sequences have room. */
  method StepBatch<P, L, S>(m: Setup<P, L, S>, rt: Runtime, batch: seq<Active<P, S>>, seqs: seq<nat>, tokens: seq<int>)
    requires rt.Valid() && Ready(m, rt.held, batch) && Room(m, rt.held, batch) && Aligned(batch, seqs, tokens)
    modifies batch, rt
    ensures rt.Valid() && rt.held - IdsOf(batch) == old(rt.held) - IdsOf(batch)
    ensures forall i | 0 <= i < |batch| ::
              && batch[i].Linked(m, rt.held)
              && batch[i].Shot(rt.held) == Pass(m, batch[i].req, old(batch[i].Shot(rt.held)))
  {
    hide AfterLogits, Pass, Active.Shot, Active.Linked;
    var answer := rt.Step(m, seqs, tokens);
    var logits := answer.value;
    ghost var stepped := rt.held;
    forall i | 0 <= i < |batch|
      ensures batch[i].Linked(m, stepped)
      ensures batch[i].Shot(stepped).history == old(batch[i].Shot(rt.held)).history + [tokens[i]]
      ensures Pass(m, batch[i].req, old(batch[i].Shot(rt.held))) ==
              AfterLogits(m, batch[i].req, batch[i].Shot(stepped), logits[i])
    {
      assert seqs[i] == batch[i].id;
      Stepped(m, batch[i], old(rt.held), stepped, tokens[i]);
      PassIs(m, batch[i], old(rt.held), stepped, logits[i]);
    }
    assert rt.held - IdsOf(batch) == old(rt.held) - IdsOf(batch);
    Deliver(m, rt, batch, logits);
  }

  lemma PassIs<P, L, S>(m: Setup<P, L, S>, a: Active<P, S>, held: map<nat, seq<int>>, held': map<nat, seq<int>>, row: L)
    requires !a.done && a.Linked(m, held) && held.Keys == held'.Keys && |held[a.id]| < m.context
    requires held'[a.id] == held[a.id] + [TokenFor(a.prompt, a.fed, a.next)] && row == m.logits(held'[a.id])
    ensures Pass(m, a.req, a.Shot(held)) == AfterLogits(m, a.req, a.Shot(held'), row)
  {
    hide AfterLogits;
  }

  lemma IdsGrow<P, S>(batch: seq<Active<P, S>>, active: seq<Active<P, S>>)
    requires forall a | a in batch :: a in active
    ensures IdsOf(batch) <= IdsOf(active)
  {
    forall id | id in IdsOf(batch)
      ensures id in IdsOf(active)
    {
      var i :| 0 <= i < |batch| && batch[i].id == id;
      assert batch[i] in active;
      var j :| 0 <= j < |active| && active[j] == batch[i];
    }
  }

  /** Changing only sequences of the batch keeps the rest of the runtime in place. */
  lemma BaseKept(held: map<nat, seq<int>>, held': map<nat, seq<int>>, inner: set<nat>, outer: set<nat>)
    requires inner <= outer && held' - inner == held - inner
    ensures held' - outer == held - outer
    ensures forall id | id !in inner :: (id in held' <==> id in held) && (id in held ==> held'[id] == held[id])
  {
    forall id | id !in inner
      ensures (id in held' <==> id in held) && (id in held ==> held'[id] == held[id])
    {
      assert id in held' <==> id in held' - inner;
      assert id in held <==> id in held - inner;
      if id in held { assert (held' - inner)[id] == (held - inner)[id]; }
    }
  }

  /** A request that is not in the batch is not affected by what happens to the batch. */
  lemma OutsideBatch<P, S>(active: seq<Active<P, S>>, batch: seq<Active<P, S>>, a: Active<P, S>)
    requires Apart(active) && a in active && a !in batch && forall b | b in batch :: b in active
    ensures a.id !in IdsOf(batch)
  {
    var k :| 0 <= k < |active| && active[k] == a;
    forall i | 0 <= i < |batch|
      ensures batch[i].id != a.id
    {
      assert batch[i] in active;
      var j :| 0 <= j < |active| && active[j] == batch[i];
    }
  }

  lemma ReadyWorld<P, L, S>(m: Setup<P, L, S>, held: map<nat, seq<int>>, active: seq<Active<P, S>>,
                            batch: seq<Active<P, S>>, base: map<nat, seq<int>>)
    requires World(m, held, active, base) && batch == Undone(active)
    ensures Ready(m, held, batch) && IdsOf(batch) <= IdsOf(active)
    ensures forall a | a in batch :: a in active && !a.done
    ensures forall a | a in active && !a.done :: a in batch
  {
    hide Active.Linked, Undone;
    UndoneFacts(active, batch);
    IdsGrow(batch, active);
  }

  /** The capacity check of one pass. */
  method CheckActive<P, L, S>(m: Setup<P, L, S>, rt: Runtime, active: seq<Active<P, S>>, batch: seq<Active<P, S>>,
                              ghost base: map<nat, seq<int>>)
    returns (seqs: seq<nat>, tokens: seq<int>, ghost flags: seq<bool>)
    requires rt.Valid() && World(m, rt.held, active, base) && batch == Undone(active)
    modifies active, rt
    ensures rt.Valid() && World(m, rt.held, active, base)
    ensures forall i | 0 <= i < |active| ::
              active[i].Shot(rt.held) ==
              if old(active[i].done) then old(active[i].Shot(rt.held)) else CheckedShot(m, old(active[i].Shot(rt.held)))
    ensures flags == DoneFlags(batch) && Aligned(Select(batch, flags), seqs, tokens)
    ensures Apart(batch) && forall a | a in batch :: a in active
    ensures forall i | 0 <= i < |active| :: active[i] !in batch ==> active[i].done
  {
    hide Active.Shot, Active.Linked, CheckedShot, Undone, Aligned, Select;
    ReadyWorld(m, rt.held, active, batch, base);
    assert forall i | 0 <= i < |batch| :: batch[i] in active;
    seqs, tokens, flags := CheckCapacity(m, rt, batch);
    BaseKept(old(rt.held), rt.held, IdsOf(batch), IdsOf(active));
    forall i | 0 <= i < |active|
      ensures active[i].Linked(m, rt.held)
      ensures active[i].Shot(rt.held) ==
              if old(active[i].done) then old(active[i].Shot(rt.held)) else CheckedShot(m, old(active[i].Shot(rt.held)))
    {
      var a := active[i];
      if a !in batch {
        OutsideBatch(active, batch, a);
        Bypassed(m, a, old(rt.held), rt.held);
      }
    }
  }

  /** The step of one pass, for the requests whose sequences have room. */
  method StepActive<P, L, S>(m: Setup<P, L, S>, rt: Runtime, active: seq<Active<P, S>>, batch: seq<Active<P, S>>,
                             seqs: seq<nat>, tokens: seq<int>, ghost base: map<nat, seq<int>>)
    requires rt.Valid() && World(m, rt.held, active, base) && Ready(m, rt.held, batch)
    requires forall a | a in batch :: a in active
    requires forall i | 0 <= i < |active| && !active[i].done :: active[i] in batch
    requires Room(m, rt.held, batch) && Aligned(batch, seqs, tokens)
    modifies active, rt
    ensures rt.Valid() && World(m, rt.held, active, base)
    ensures forall i | 0 <= i < |active| ::
              active[i].Shot(rt.held) ==
              if old(active[i].done) then old(active[i].Shot(rt.held))
              else Pass(m, active[i].req, old(active[i].Shot(rt.held)))
  {
    hide Active.Shot, Active.Linked, Pass, Undone, Aligned, Room;
    IdsGrow(batch, active);
    assert forall i | 0 <= i < |batch| :: batch[i] in active;
    StepBatch(m, rt, batch, seqs, tokens);
    BaseKept(old(rt.held), rt.held, IdsOf(batch), IdsOf(active));
    forall i | 0 <= i < |active|
      ensures active[i].Linked(m, rt.held)
      ensures active[i].Shot(rt.held) ==
              if old(active[i].done) then old(active[i].Shot(rt.held))
              else Pass(m, active[i].req, old(active[i].Shot(rt.held)))
    {
      var a := active[i];
      if a !in batch {
        OutsideBatch(active, batch, a);
        Bypassed(m, a, old(rt.held), rt.held);
      }
    }
  }

  lemma RoomAfterCheck<P, L, S>(m: Setup<P, L, S>, held: map<nat, seq<int>>, a: Active<P, S>, s: Snap<S>)
    requires !a.done && a.Linked(m, held) && a.Shot(held) == CheckedShot(m, s)
    ensures a.id in held && |held[a.id]| < m.context && CheckedShot(m, s) == s
  {
  }

  lemma ReadyAgain<P, L, S>(m: Setup<P, L, S>, held: map<nat, seq<int>>, active: seq<Active<P, S>>,
                            batch0: seq<Active<P, S>>,
                            batch: seq<Active<P, S>>, base: map<nat, seq<int>>)
    requires World(m, held, active, base) && Apart(batch0) && batch == Undone(batch0)
    requires forall a | a in batch0 :: a in active
    requires forall i | 0 <= i < |active| :: active[i] !in batch0 ==> active[i].done
    ensures Ready(m, held, batch)
    ensures forall a | a in batch :: a in active && a in batch0
    ensures forall i | 0 <= i < |active| && !active[i].done :: active[i] in batch
  {
    hide Active.Linked, Undone;
    UndoneFacts(batch0, batch);
  }

  lemma PassSplits<P, L, S>(m: Setup<P, L, S>, req: Request<P>, s: Snap<S>)
    ensures s.done ==> Pass(m, req, s) == s
    ensures !s.done && |s.history| >= m.context ==> Pass(m, req, s) == CheckedShot(m, s)
  {
  }

  /** One pass of the loop: every request moves exactly as it would alone. */
  method Round<P, L, S>(m: Setup<P, L, S>, rt: Runtime, active: seq<Active<P, S>>, batch0: seq<Active<P, S>>,
                        ghost base: map<nat, seq<int>>)
    requires rt.Valid() && World(m, rt.held, active, base) && batch0 == Undone(active)
    modifies active, rt
    ensures rt.Valid() && World(m, rt.held, active, base)
    ensures forall i | 0 <= i < |active| ::
              active[i].Shot(rt.held) == Pass(m, active[i].req, old(active[i].Shot(rt.held)))
  {
    hide Pass, Active.Linked, Apart, Select;
    ReadyWorld(m, rt.held, active, batch0, base);
    var seqs, tokens, flags := CheckActive(m, rt, active, batch0, base);
    ghost var kept := Select(batch0, flags);
    assert Aligned(kept, seqs, tokens);
    var batch := KeepUndone(batch0, flags);
    assert batch == kept && Aligned(kept, seqs, tokens);
    ReadyAgain(m, rt.held, active, batch0, batch, base);
    forall i | 0 <= i < |active|
      ensures old(active[i].done) || active[i].done ==>
                active[i].Shot(rt.held) == Pass(m, active[i].req, old(active[i].Shot(rt.held)))
      ensures !active[i].done ==> !old(active[i].done) && active[i].Shot(rt.held) == old(active[i].Shot(rt.held))
      ensures !active[i].done ==> active[i].id in rt.held && |rt.held[active[i].id]| < m.context
    {
      PassSplits(m, active[i].req, old(active[i].Shot(rt.held)));
      if !active[i].done {
        LinkedNow(m, rt.held, active, i, base);
        RoomAfterCheck(m, rt.held, active[i], old(active[i].Shot(rt.held)));
      }
    }
    forall i | 0 <= i < |batch|
      ensures batch[i].id in rt.held && |rt.held[batch[i].id]| < m.context
    {
      assert batch[i] in batch;
      var j :| 0 <= j < |active| && active[j] == batch[i];
    }
    if batch == [] {
      return;
    }
    StepActive(m, rt, active, batch, seqs, tokens, base);
  }

  lemma LinkedNow<P, L, S>(m: Setup<P, L, S>, held: map<nat, seq<int>>, active: seq<Active<P, S>>, i: nat,
                           base: map<nat, seq<int>>)
    requires World(m, held, active, base) && i < |active|
    ensures active[i].Linked(m, held)
  {
  }

  /** Cancels what is left of the batch. */
  method CancelAll<P, L, S>(m: Setup<P, L, S>, rt: Runtime, active: seq<Active<P, S>>, batch: seq<Active<P, S>>,
                            ghost base: map<nat, seq<int>>)
    requires rt.Valid() && World(m, rt.held, active, base) && batch == Undone(active)
    modifies active, rt
    ensures rt.Valid() && World(m, rt.held, active, base)
    ensures forall i | 0 <= i < |active| ::
              active[i].Shot(rt.held) ==
              if old(active[i].done) then old(active[i].Shot(rt.held))
              else Finished(old(active[i].Shot(rt.held)), Cancelled)
  {
    hide Active.Shot, Active.Linked, Undone;
    ReadyWorld(m, rt.held, active, batch, base);
    assert forall i | 0 <= i < |batch| :: batch[i] in active;
    CloseAll(m, rt, batch);
    BaseKept(old(rt.held), rt.held, IdsOf(batch), IdsOf(active));
    forall i | 0 <= i < |active|
      ensures active[i].Linked(m, rt.held)
      ensures active[i].Shot(rt.held) ==
              if old(active[i].done) then old(active[i].Shot(rt.held))
              else Finished(old(active[i].Shot(rt.held)), Cancelled)
    {
      var a := active[i];
      if a !in batch {
        OutsideBatch(active, batch, a);
        Bypassed(m, a, old(rt.held), rt.held);
      }
    }
  }

  method CloseAll<P, L, S>(m: Setup<P, L, S>, rt: Runtime, batch: seq<Active<P, S>>)
    requires rt.Valid() && Ready(m, rt.held, batch)
    modifies batch, rt
    ensures rt.Valid() && rt.held - IdsOf(batch) == old(rt.held) - IdsOf(batch)
    ensures forall a | a in batch ::
              a.Linked(m, rt.held) && a.Shot(rt.held) == Finished(old(a.Shot(rt.held)), Cancelled)
  {
    hide Finished, Active.Shot, Active.Linked;
    for j := 0 to |batch|
      invariant rt.Valid() && rt.held - IdsOf(batch) == old(rt.held) - IdsOf(batch)
      invariant forall i | 0 <= i < j ::
                  && batch[i].Linked(m, rt.held)
                  && batch[i].Shot(rt.held) == Finished(old(batch[i].Shot(rt.held)), Cancelled)
      invariant forall i | j <= i < |batch| ::
                  !batch[i].done && batch[i].Linked(m, rt.held) && batch[i].Shot(rt.held) == old(batch[i].Shot(rt.held))
    {
      ghost var held := rt.held;
      Close(m, rt, batch[j], Cancelled);
      forall i | 0 <= i < |batch| && i != j
        ensures batch[i].Shot(rt.held) == batch[i].Shot(held)
        ensures batch[i].Linked(m, rt.held) <==> batch[i].Linked(m, held)
      {
        Untouched(m, batch[i], held, rt.held, batch[j].id);
      }
    }
  }

  // ---------------------------------------------------------------- generate_batch

  /** Returns every sequence of a batch that is abandoned. */
  method Abandon<P, S>(rt: Runtime, active: seq<Active<P, S>>)
    requires rt.Valid()
    modifies rt
    ensures rt.Valid() && rt.held == old(rt.held) - IdsOf(active)
  {
    for k := 0 to |active|
      invariant rt.Valid() && rt.held == old(rt.held) - IdsOf(active[..k])
    {
      assert IdsOf(active[..k + 1]) == IdsOf(active[..k]) + {active[k].id} by {
        assert active[..k + 1] == active[..k] + [active[k]];
        IdsOfSnoc(active[..k], active[k]);
      }
      rt.Drop(active[k].id);
    }
    assert active[..|active|] == active;
  }

  lemma IdsOfSnoc<P, S>(active: seq<Active<P, S>>, a: Active<P, S>)
    ensures IdsOf(active + [a]) == IdsOf(active) + {a.id}
  {
    var longer := active + [a];
    forall id | id in IdsOf(active) + {a.id}
      ensures id in IdsOf(longer)
    {
      if id in IdsOf(active) {
        var i :| 0 <= i < |active| && active[i].id == id;
        assert longer[i].id == id;
      } else {
        assert longer[|active|].id == id;
      }
    }
    forall id | id in IdsOf(longer)
      ensures id in IdsOf(active) + {a.id}
    {
      var i :| 0 <= i < |longer| && longer[i].id == id;
      if i < |active| { assert active[i].id == id; }
    }
  }

  /** `active` holds the first requests, each at its start. */
  ghost predicate Opened<P, L, S>(m: Setup<P, L, S>, held: map<nat, seq<int>>, active: seq<Active<P, S>>,
                                  reqs: seq<Request<P>>)
    reads active
  {
    && |active| <= |reqs|
    && forall i | 0 <= i < |active| :: active[i].req == reqs[i] && active[i].Shot(held) == Start(m, reqs[i])
  }

  /** One more request joins. */
  lemma OpenedGrows<P, L, S>(m: Setup<P, L, S>, held: map<nat, seq<int>>, held': map<nat, seq<int>>,
                             active: seq<Active<P, S>>, a: Active<P, S>, reqs: seq<Request<P>>,
                             base: map<nat, seq<int>>)
    requires World(m, held, active, base) && Opened(m, held, active, reqs) && |active| < |reqs|
    requires a.id !in held && held' == held[a.id := []] && a.Linked(m, held')
    requires a.req == reqs[|active|] && a.Shot(held') == Start(m, a.req)
    ensures World(m, held', active + [a], base) && Opened(m, held', active + [a], reqs)
  {
    hide World;
    forall i | 0 <= i < |active|
      ensures !active[i].done
    {
      assert active[i].Shot(held) == Start(m, reqs[i]);
    }
    WorldGrows(m, held, held', active, a, base);
  }

  lemma WorldBase<P, L, S>(m: Setup<P, L, S>, held: map<nat, seq<int>>, active: seq<Active<P, S>>,
                           base: map<nat, seq<int>>)
    requires World(m, held, active, base)
    ensures held - IdsOf(active) == base
  {
  }

  lemma NoneOpened<P, L, S>(m: Setup<P, L, S>, held: map<nat, seq<int>>, reqs: seq<Request<P>>)
    ensures var none: seq<Active<P, S>> := []; World(m, held, none, held) && Opened(m, held, none, reqs)
  {
  }

  /** Opens one sequence and builds its request state. */
  method Open<P, L, S>(m: Setup<P, L, S>, rt: Runtime, req: Request<P>) returns (a: Active<P, S>)
    requires rt.Valid()
    modifies rt
    ensures fresh(a) && a.req == req && rt.Valid() && a.id !in old(rt.held) && rt.held == old(rt.held)[a.id := []]
    ensures a.Linked(m, rt.held) && a.Shot(rt.held) == Start(m, req)
  {
    var id := rt.NewSequence();
    a := new Active(req, m.encode(req.prompt, req.addBos), id, m.newSampler(req.sampling));
  }

  /** The setup loop: rejects the whole call on the first bad request, otherwise opens a sequence for each. */
  method Admit<P, L, S>(m: Setup<P, L, S>, rt: Runtime, reqs: seq<Request<P>>) returns (r: Result<seq<Active<P, S>>>)
    requires rt.Valid()
    modifies rt
    ensures rt.Valid()
    ensures r.Err? <==> exists i :: 0 <= i < |reqs| && !Admissible(m, reqs[i])
    ensures r.Err? ==> rt.held == old(rt.held)
    ensures r.Ok? ==> |r.value| == |reqs| && World(m, rt.held, r.value, old(rt.held))
    ensures r.Ok? ==> Opened(m, rt.held, r.value, reqs)
    ensures r.Ok? ==> forall i | 0 <= i < |r.value| :: fresh(r.value[i])
  {
    hide World, Opened, Active.Shot, Active.Linked;
    var active: seq<Active<P, S>> := [];
    NoneOpened<P, L, S>(m, rt.held, reqs);
    for k := 0 to |reqs|
      invariant rt.Valid() && |active| == k && forall i | 0 <= i < k :: fresh(active[i])
      invariant World(m, rt.held, active, old(rt.held)) && Opened(m, rt.held, active, reqs)
      invariant forall i | 0 <= i < k :: Admissible(m, reqs[i])
    {
      var prompt := m.encode(reqs[k].prompt, reqs[k].addBos);
      if prompt == [] || reqs[k].maxNew < 0 || |prompt| > m.context {
        assert !Admissible(m, reqs[k]);
        WorldBase(m, rt.held, active, old(rt.held));
        Abandon(rt, active);
        return Err("bad request");
      }
      ghost var held := rt.held;
      var a := Open(m, rt, reqs[k]);
      OpenedGrows(m, held, rt.held, active, a, reqs, old(rt.held));
      active := active + [a];
    }
    r := Ok(active);
  }

  lemma WorldGrows<P, L, S>(m: Setup<P, L, S>, held: map<nat, seq<int>>, held': map<nat, seq<int>>,
                            active: seq<Active<P, S>>, a: Active<P, S>, base: map<nat, seq<int>>)
    requires World(m, held, active, base) && a.id !in held && held' == held[a.id := []] && a.Linked(m, held')
    requires forall i | 0 <= i < |active| :: !active[i].done
    ensures World(m, held', active + [a], base)
    ensures forall i | 0 <= i < |active| :: active[i].Shot(held') == active[i].Shot(held)
  {
    IdsOfSnoc(active, a);
    assert held' - IdsOf(active + [a]) == base;
  }

  /** A bound on the number of passes. */
  ghost function Limit<P, L, S>(m: Setup<P, L, S>, reqs: seq<Request<P>>): (limit: nat)
    ensures forall i | 0 <= i < |reqs| :: Bound(m, reqs[i]) <= limit
  {
    if reqs == [] then 0
    else
      var rest, last := Limit(m, reqs[..|reqs| - 1]), Bound(m, reqs[|reqs| - 1]);
      assert forall i | 0 <= i < |reqs| - 1 :: reqs[..|reqs| - 1][i] == reqs[i];
      if rest < last then last else rest
  }

  lemma {:induction false} StaysDone<P, L, S>(m: Setup<P, L, S>, req: Request<P>, k: nat, later: nat)
    requires Solo(m, req, k).done && k <= later
    ensures Solo(m, req, later) == Solo(m, req, k)
    decreases later
  {
    if k < later {
      StaysDone(m, req, k, later - 1);
    }
  }

  /** Every request of the batch is where it would be alone after the same number of passes. */
  ghost predicate InStep<P, L, S>(m: Setup<P, L, S>, held: map<nat, seq<int>>, active: seq<Active<P, S>>,
                                  reqs: seq<Request<P>>, passes: nat)
    reads active
  {
    |active| == |reqs| && forall i | 0 <= i < |active| ::
      active[i].req == reqs[i] && active[i].Shot(held) == Solo(m, reqs[i], passes)
  }

  lemma PassesLeft<P, L, S>(m: Setup<P, L, S>, held: map<nat, seq<int>>, active: seq<Active<P, S>>,
                            reqs: seq<Request<P>>, passes: nat,
                            batch: seq<Active<P, S>>)
    requires InStep(m, held, active, reqs, passes) && forall i | 0 <= i < |reqs| :: Admissible(m, reqs[i])
    requires batch == Undone(active) && Apart(active)
    ensures batch != [] ==> passes < Limit(m, reqs)
    ensures batch == [] ==> forall i | 0 <= i < |active| :: active[i].done
  {
    hide Solo, Limit, Bound, Undone;
    UndoneFacts(active, batch);
    if batch != [] {
      assert batch[0] in active;
      var i :| 0 <= i < |active| && active[i] == batch[0];
      if passes >= Bound(m, reqs[i]) { SoloEnds(m, reqs[i], passes); }
      LimitBounds(m, reqs, i);
    }
  }

  lemma LimitBounds<P, L, S>(m: Setup<P, L, S>, reqs: seq<Request<P>>, i: nat)
    requires i < |reqs|
    ensures Bound(m, reqs[i]) <= Limit(m, reqs)
  {
  }

  /** How a request that reached `s` reports when the loop ends at pass `passes`. */
  lemma FinalReport<P, L, S>(m: Setup<P, L, S>, req: Request<P>, passes: nat, cancelAt: Option<nat>, s: Snap<S>)
    requires Admissible(m, req) && (cancelAt.Some? ==> passes <= cancelAt.value)
    requires if Solo(m, req, passes).done then s == Solo(m, req, passes)
             else cancelAt == Some(passes) && s == Finished(Solo(m, req, passes), Cancelled)
    ensures Report(m, req, Outcome(s.tokens, s.finish)) == Expected(m, req, cancelAt)
  {
    hide Solo, Generated;
    if Solo(m, req, passes).done {
      SoloDone(m, req, passes);
      if cancelAt.Some? { StaysDone(m, req, passes, cancelAt.value); }
    }
  }

  lemma SoloStep<P, L, S>(m: Setup<P, L, S>, req: Request<P>, passes: nat)
    ensures Solo(m, req, passes + 1) == Pass(m, req, Solo(m, req, passes))
  {
  }

  method OnePass<P, L, S>(m: Setup<P, L, S>, rt: Runtime, active: seq<Active<P, S>>, batch: seq<Active<P, S>>,
                          reqs: seq<Request<P>>, passes: nat, ghost base: map<nat, seq<int>>)
    requires rt.Valid() && World(m, rt.held, active, base) && batch == Undone(active)
    requires InStep(m, rt.held, active, reqs, passes)
    modifies active, rt
    ensures rt.Valid() && World(m, rt.held, active, base) && InStep(m, rt.held, active, reqs, passes + 1)
  {
    hide Solo, Undone, Pass, World, Active.Shot;
    Round(m, rt, active, batch, base);
    forall i | 0 <= i < |active|
      ensures active[i].Shot(rt.held) == Solo(m, reqs[i], passes + 1)
    {
      SoloStep(m, reqs[i], passes);
    }
  }

  /** Every request is finished and reports as expected. */
  ghost predicate AllReported<P, L, S>(m: Setup<P, L, S>, active: seq<Active<P, S>>, reqs: seq<Request<P>>,
                                       cancelAt: Option<nat>)
    reads active
  {
    |active| == |reqs| && forall i | 0 <= i < |active| ::
      && active[i].done && active[i].req == reqs[i]
      && Report(m, reqs[i], Outcome(active[i].tokens, active[i].finish)) == Expected(m, reqs[i], cancelAt)
  }

  method CancelRest<P, L, S>(m: Setup<P, L, S>, rt: Runtime, active: seq<Active<P, S>>, batch: seq<Active<P, S>>,
                             reqs: seq<Request<P>>, passes: nat, ghost base: map<nat, seq<int>>)
    requires rt.Valid() && World(m, rt.held, active, base) && batch == Undone(active)
    requires InStep(m, rt.held, active, reqs, passes) && forall i | 0 <= i < |reqs| :: Admissible(m, reqs[i])
    modifies active, rt
    ensures rt.Valid() && World(m, rt.held, active, base) && AllReported(m, active, reqs, Some(passes))
  {
    hide Solo, Undone, World, AllReported, Admissible;
    CancelAll(m, rt, active, batch, base);
    Reports(m, rt.held, active, reqs, passes, Some(passes));
  }

  /** Runs the passes until every request is finished or the cancellation flag is seen. */
  method RunPasses<P, L, S>(m: Setup<P, L, S>, rt: Runtime, active: seq<Active<P, S>>, reqs: seq<Request<P>>,
                            cancelAt: Option<nat>,
                            ghost base: map<nat, seq<int>>)
    requires rt.Valid() && World(m, rt.held, active, base) && InStep(m, rt.held, active, reqs, 0)
    requires forall i | 0 <= i < |reqs| :: Admissible(m, reqs[i])
    modifies active, rt
    ensures rt.Valid() && World(m, rt.held, active, base) && AllReported(m, active, reqs, cancelAt)
  {
    hide Limit, Undone, World, InStep, AllReported, Admissible, Apart, DoneFlags, Select;
    var passes := 0;
    while true
      invariant rt.Valid() && World(m, rt.held, active, base) && InStep(m, rt.held, active, reqs, passes)
      invariant cancelAt.Some? ==> passes <= cancelAt.value
      decreases Limit(m, reqs) - passes
    {
      ghost var flags := DoneFlags(active);
      var batch := KeepUndone(active, flags);
      WorldApart(m, rt.held, active, base);
      PassesLeft(m, rt.held, active, reqs, passes, batch);
      if batch == [] {
        FinishedReports(m, rt.held, active, reqs, passes, cancelAt);
        break;
      }
      if cancelAt.Some? && passes >= cancelAt.value {
        CancelRest(m, rt, active, batch, reqs, passes, base);
        break;
      }
      OnePass(m, rt, active, batch, reqs, passes, base);
      passes := passes + 1;
    }
  }

  lemma WorldApart<P, L, S>(m: Setup<P, L, S>, held: map<nat, seq<int>>, active: seq<Active<P, S>>,
                            base: map<nat, seq<int>>)
    requires World(m, held, active, base)
    ensures Apart(active)
  {
  }

  lemma FinishedReports<P, L, S>(m: Setup<P, L, S>, held: map<nat, seq<int>>, active: seq<Active<P, S>>,
                                 reqs: seq<Request<P>>,
                                 passes: nat, cancelAt: Option<nat>)
    requires InStep(m, held, active, reqs, passes) && forall i | 0 <= i < |reqs| :: Admissible(m, reqs[i])
    requires cancelAt.Some? ==> passes <= cancelAt.value
    requires forall i | 0 <= i < |active| :: active[i].done
    ensures AllReported(m, active, reqs, cancelAt)
  {
    hide Solo, AllReported, Admissible;
    Reports(m, held, active, reqs, passes, cancelAt);
  }

  lemma Reports<P, L, S>(m: Setup<P, L, S>, held: map<nat, seq<int>>, active: seq<Active<P, S>>, reqs: seq<Request<P>>,
                         passes: nat,
                         cancelAt: Option<nat>)
    requires |active| == |reqs| && forall i | 0 <= i < |reqs| :: Admissible(m, reqs[i]) && active[i].req == reqs[i]
    requires cancelAt.Some? ==> passes <= cancelAt.value
    requires forall i | 0 <= i < |reqs| ::
               var s := Solo(m, reqs[i], passes);
               if s.done then active[i].Shot(held) == s
               else cancelAt == Some(passes) && active[i].Shot(held) == Finished(s, Cancelled)
    ensures AllReported(m, active, reqs, cancelAt)
  {
    hide Solo, Expected, Report;
    forall i | 0 <= i < |active|
      ensures active[i].done
      ensures Report(m, reqs[i], Outcome(active[i].tokens, active[i].finish)) == Expected(m, reqs[i], cancelAt)
    {
      FinalReport(m, reqs[i], passes, cancelAt, active[i].Shot(held));
    }
  }

  /** `generate_batch`: every request gets the result it would get alone, and the runtime gets every sequence
      back. `cancelAt` is the first pass that sees the cancellation flag set. */
  method GenerateBatch<P, L, S>(m: Setup<P, L, S>, rt: Runtime, reqs: seq<Request<P>>, cancelAt: Option<nat>)
    returns (r: Result<seq<GenerationResult>>)
    requires rt.Valid()
    modifies rt
    ensures r.Err? <==> |reqs| > m.maxBatch || exists i :: 0 <= i < |reqs| && !Admissible(m, reqs[i])
    ensures r.Ok? ==> |r.value| == |reqs| && forall i | 0 <= i < |reqs| :: r.value[i] == Expected(m, reqs[i], cancelAt)
    ensures rt.Valid() && rt.held == old(rt.held)
  {
    hide Expected, Admissible, World, InStep, Opened;
    if |reqs| > m.maxBatch {
      return Err("requests exceed max_batch");
    }
    var admitted := Admit(m, rt, reqs);
    if admitted.Err? {
      return Err(admitted.reason);
    }
    var active := admitted.value;
    StartsInStep(m, rt.held, active, reqs);
    RunPasses(m, rt, active, reqs, cancelAt, old(rt.held));
    var results := Collect(m, rt, active, reqs, cancelAt, old(rt.held));
    NothingHeld(m, rt.held, active, reqs, cancelAt, old(rt.held));
    r := Ok(results);
  }

  method Collect<P, L, S>(m: Setup<P, L, S>, rt: Runtime, active: seq<Active<P, S>>, reqs: seq<Request<P>>,
                          cancelAt: Option<nat>,
                          ghost base: map<nat, seq<int>>) returns (results: seq<GenerationResult>)
    requires World(m, rt.held, active, base) && AllReported(m, active, reqs, cancelAt)
    ensures |results| == |reqs| && forall i | 0 <= i < |reqs| :: results[i] == Expected(m, reqs[i], cancelAt)
  {
    hide Expected;
    results := [];
    for k := 0 to |active|
      invariant |results| == k && forall i | 0 <= i < k :: results[i] == Expected(m, reqs[i], cancelAt)
    {
      var a := active[k];
      assert a.Linked(m, rt.held);
      results := results + [GenerationResult(a.text, a.tokens, |a.prompt|, |a.tokens|, a.finish)];
    }
  }

  lemma StartsInStep<P, L, S>(m: Setup<P, L, S>, held: map<nat, seq<int>>, active: seq<Active<P, S>>,
                              reqs: seq<Request<P>>)
    requires |active| == |reqs| && Opened(m, held, active, reqs)
    ensures InStep(m, held, active, reqs, 0)
  {
  }

  lemma NothingHeld<P, L, S>(m: Setup<P, L, S>, held: map<nat, seq<int>>, active: seq<Active<P, S>>,
                             reqs: seq<Request<P>>,
                             cancelAt: Option<nat>, base: map<nat, seq<int>>)
    requires World(m, held, active, base) && AllReported(m, active, reqs, cancelAt)
    ensures held == base
  {
    forall i | 0 <= i < |active|
      ensures active[i].id !in held
    {
      assert active[i].Linked(m, held);
    }
    assert held - IdsOf(active) == held;
  }
}
