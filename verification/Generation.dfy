/** Text generation: one request by itself, and many requests stepped together. */
module Generation {
  import opened Common

  datatype Finish = Length | EndOfSequence | Cancelled | ContextFull

  datatype Request<P> = Request(prompt: string, maxNew: int, sampling: P, addBos: bool)

  /** A result without its timings; `finish` and the counts are the metrics a caller acts on. */
  datatype GenerationResult = GenerationResult(
    text: string, tokens: seq<int>, promptTokens: nat, generated: nat, finish: Finish)

  /** Everything generation calls into: the tokenizer, the model, the sampler and the limits. The logits of a
      step are a function of the tokens the sequence holds after it. */
  datatype Setup<!P, !L, !S> = Setup(
    encode: (string, bool) -> seq<int>, decode: seq<int> -> string, eos: int,
    logits: seq<int> -> L, newSampler: P -> S, sample: (S, L) -> (int, S),
    context: nat, maxBatch: nat)

  function Prompt<P, L, S>(m: Setup<P, L, S>, req: Request<P>): seq<int> {
    m.encode(req.prompt, req.addBos)
  }

  // ---------------------------------------------------------------- the definition

  datatype Outcome = Outcome(tokens: seq<int>, finish: Finish)

  /** Sampling from a sequence that holds `history`, after `tokens` were generated. `accept` is the callback; the
      cancellation flag is seen once `stop` tokens are there, if ever. */
  function Continue<P, L, S>(m: Setup<P, L, S>, maxNew: int, accept: seq<int> -> bool, stop: Option<nat>,
                             history: seq<int>, sampler: S, tokens: seq<int>): Outcome
    decreases maxNew - |tokens|
  {
    if |tokens| >= maxNew then Outcome(tokens, Length)
    else if stop.Some? && |tokens| >= stop.value then Outcome(tokens, Cancelled)
    else
      var (next, sampler') := m.sample(sampler, m.logits(history));
      if next == m.eos then Outcome(tokens, EndOfSequence)
      else
        var tokens' := tokens + [next];
        if !accept(tokens') then Outcome(tokens', Cancelled)
        else if |tokens'| >= maxNew then Outcome(tokens', Length)
        else if |history| >= m.context then Outcome(tokens', ContextFull)
        else Continue(m, maxNew, accept, stop, history + [next], sampler', tokens')
  }

  /** What one request generates. */
  function Generated<P, L, S>(m: Setup<P, L, S>, req: Request<P>, accept: seq<int> -> bool,
                              stop: Option<nat>): Outcome {
    Continue(m, req.maxNew, accept, stop, Prompt(m, req), m.newSampler(req.sampling), [])
  }

  function Report<P, L, S>(m: Setup<P, L, S>, req: Request<P>, o: Outcome): GenerationResult {
    GenerationResult(m.decode(o.tokens), o.tokens, |Prompt(m, req)|, |o.tokens|, o.finish)
  }

  /** The flag is polled before every prompt token and before every sample; `cancelAt` is the first poll that sees
      it set. During the prompt the result carries no text at all. */
  function Streamed<P, L, S>(m: Setup<P, L, S>, req: Request<P>, accept: seq<int> -> bool,
                             cancelAt: Option<nat>): GenerationResult {
    var n := |Prompt(m, req)|;
    if cancelAt.Some? && cancelAt.value < n then GenerationResult("", [], n, 0, Cancelled)
    else Report(m, req, Generated(m, req, accept, if cancelAt.Some? then Some(cancelAt.value - n) else None))
  }

  /** Cancelling a stream loses a suffix of its tokens and nothing else. */
  lemma {:induction false} StopIsPrefix<P, L, S>(m: Setup<P, L, S>, maxNew: int, accept: seq<int> -> bool, stop: nat,
                                                 history: seq<int>, sampler: S, tokens: seq<int>)
    ensures tokens <= Continue(m, maxNew, accept, Some(stop), history, sampler, tokens).tokens
    ensures Continue(m, maxNew, accept, Some(stop), history, sampler, tokens).tokens <=
            Continue(m, maxNew, accept, None, history, sampler, tokens).tokens
    ensures tokens <= Continue(m, maxNew, accept, None, history, sampler, tokens).tokens
    decreases maxNew - |tokens|
  {
    if |tokens| < maxNew {
      var drawn := m.sample(sampler, m.logits(history));
      if drawn.0 != m.eos {
        StopIsPrefix(m, maxNew, accept, stop, history + [drawn.0], drawn.1, tokens + [drawn.0]);
      }
    }
  }

  lemma StreamIsPrefix<P, L, S>(m: Setup<P, L, S>, req: Request<P>, accept: seq<int> -> bool, cancelAt: nat)
    ensures Streamed(m, req, accept, Some(cancelAt)).tokens <= Streamed(m, req, accept, None).tokens
  {
    var n := |Prompt(m, req)|;
    if cancelAt >= n {
      StopIsPrefix(m, req.maxNew, accept, cancelAt - n, Prompt(m, req), m.newSampler(req.sampling), []);
    }
  }

  function Always(): seq<int> -> bool {
    _ => true
  }

  // ---------------------------------------------------------------- the runtime's sequences

  /** The sequences alive in the runtime and the tokens each of them holds. */
  class Runtime {
    var held: map<nat, seq<int>>
    var nextId: nat

    ghost predicate Valid()
      reads this
    {
      forall id | id in held :: id < nextId
    }

    constructor ()
      ensures Valid() && held == map[]
    {
      held, nextId := map[], 0;
    }

    method NewSequence() returns (id: nat)
      requires Valid()
      modifies this
      ensures Valid() && id !in old(held) && held == old(held)[id := []]
    {
      id := nextId;
      held := held[id := []];
      nextId := nextId + 1;
    }

    method Drop(id: nat)
      requires Valid()
      modifies this
      ensures Valid() && held == old(held) - {id}
    {
      held := held - {id};
    }

    /** Appends `tokens[i]` to `seqs[i]`; one row of logits per sequence, in the same order. A full sequence fails
        the whole step and nothing changes. */
    method Step<P, L, S>(m: Setup<P, L, S>, seqs: seq<nat>, tokens: seq<int>) returns (r: Result<seq<L>>)
      requires Valid() && |seqs| == |tokens| && forall i | 0 <= i < |seqs| :: seqs[i] in held
      requires forall i, j | 0 <= i < j < |seqs| :: seqs[i] != seqs[j]
      modifies this
      ensures Valid() && held.Keys == old(held).Keys
      ensures r.Err? <==> exists i :: 0 <= i < |seqs| && |old(held)[seqs[i]]| >= m.context
      ensures r.Err? ==> held == old(held)
      ensures r.Ok? ==> |r.value| == |seqs|
      ensures r.Ok? ==> forall i | 0 <= i < |seqs| ::
                held[seqs[i]] == old(held)[seqs[i]] + [tokens[i]] && r.value[i] == m.logits(held[seqs[i]])
      ensures forall id | id in held && id !in seqs :: held[id] == old(held)[id]
    {
      for k := 0 to |seqs|
        invariant forall i | 0 <= i < k :: |held[seqs[i]]| < m.context
      {
        if |held[seqs[k]]| >= m.context {
          return Err("context full");
        }
      }
      var logits: seq<L> := [];
      for k := 0 to |seqs|
        invariant Valid() && held.Keys == old(held).Keys && |logits| == k
        invariant forall i | 0 <= i < k ::
                    held[seqs[i]] == old(held)[seqs[i]] + [tokens[i]] && logits[i] == m.logits(held[seqs[i]])
        invariant forall i | k <= i < |seqs| :: held[seqs[i]] == old(held)[seqs[i]]
        invariant forall id | id in held && id !in seqs :: held[id] == old(held)[id]
      {
        held := held[seqs[k] := held[seqs[k]] + [tokens[k]]];
        logits := logits + [m.logits(held[seqs[k]])];
      }
      r := Ok(logits);
    }
  }

  // ---------------------------------------------------------------- one request, streaming

  method StepOne<P, L, S>(m: Setup<P, L, S>, rt: Runtime, id: nat, token: int) returns (row: L)
    requires rt.Valid() && id in rt.held && |rt.held[id]| < m.context
    modifies rt
    ensures rt.Valid() && rt.held == old(rt.held)[id := old(rt.held)[id] + [token]]
    ensures row == m.logits(rt.held[id])
  {
    assert [id][0] == id;
    var logits := rt.Step(m, [id], [token]);
    row := logits.value[0];
    assert rt.held[id] == old(rt.held)[id] + [token];
  }

  /** The flag as poll number `poll` sees it. */
  predicate Flag(cancelAt: Option<nat>, poll: nat) {
    cancelAt.Some? && poll >= cancelAt.value
  }

  /** Feeds the prompt; the logits after its last token, or nothing when the flag was seen on the way. */
  method Prefill<P, L, S>(m: Setup<P, L, S>, rt: Runtime, id: nat, prompt: seq<int>, cancelAt: Option<nat>)
    returns (row: Option<L>)
    requires rt.Valid() && id in rt.held && rt.held[id] == []
    requires 0 < |prompt| <= m.context
    modifies rt
    ensures rt.Valid() && rt.held - {id} == old(rt.held) - {id}
    ensures row.None? <==> cancelAt.Some? && cancelAt.value < |prompt|
    ensures row.Some? ==> rt.held == old(rt.held)[id := prompt] && row == Some(m.logits(prompt))
  {
    row := None;
    for k := 0 to |prompt|
      invariant rt.Valid() && rt.held == old(rt.held)[id := prompt[..k]]
      invariant row == if k == 0 then None else Some(m.logits(prompt[..k]))
      invariant k > 0 ==> !Flag(cancelAt, k - 1)
    {
      if Flag(cancelAt, k) {
        return None;
      }
      assert prompt[..k + 1] == prompt[..k] + [prompt[k]];
      var logits := StepOne(m, rt, id, prompt[k]);
      row := Some(logits);
    }
    assert prompt[..|prompt|] == prompt;
  }

  /** Samples until a limit, the end of the sequence, the flag or the callback stops it. `polls` is the number of
      polls made before. */
  method DecodeLoop<P, L, S>(m: Setup<P, L, S>, rt: Runtime, id: nat, maxNew: int, accept: seq<int> -> bool,
                             cancelAt: Option<nat>, polls: nat, sampler0: S, row0: Option<L>)
    returns (tokens: seq<int>, finish: Finish)
    requires rt.Valid() && id in rt.held && row0 == Some(m.logits(rt.held[id]))
    requires cancelAt.Some? ==> cancelAt.value >= polls
    modifies rt
    ensures rt.Valid() && rt.held - {id} == old(rt.held) - {id}
    ensures Outcome(tokens, finish) ==
            Continue(m, maxNew, accept, if cancelAt.Some? then Some(cancelAt.value - polls) else None,
                     old(rt.held[id]), sampler0, [])
  {
    ghost var stop := if cancelAt.Some? then Some(cancelAt.value - polls) else None;
    ghost var goal := Continue(m, maxNew, accept, stop, rt.held[id], sampler0, []);
    var sampler, row := sampler0, row0;
    tokens, finish := [], Length;
    while |tokens| < maxNew
      invariant rt.Valid() && id in rt.held && rt.held - {id} == old(rt.held) - {id}
      invariant row == Some(m.logits(rt.held[id]))
      invariant finish == Length
      invariant goal == Continue(m, maxNew, accept, stop, rt.held[id], sampler, tokens)
      decreases maxNew - |tokens|
    {
      if Flag(cancelAt, polls + |tokens|) {
        finish := Cancelled;
        break;
      }
      var drawn := m.sample(sampler, row.value);
      var next := drawn.0;
      sampler := drawn.1;
      if next == m.eos {
        finish := EndOfSequence;
        break;
      }
      tokens := tokens + [next];
      if !accept(tokens) {
        finish := Cancelled;
        break;
      }
      if |tokens| >= maxNew { break; }
      if |rt.held[id]| >= m.context {
        finish := ContextFull;
        break;
      }
      var logits := StepOne(m, rt, id, next);
      row := Some(logits);
    }
  }

  /** `generate` with a callback. */
  method Generate<P, L, S>(m: Setup<P, L, S>, rt: Runtime, req: Request<P>, accept: seq<int> -> bool,
                           cancelAt: Option<nat>)
    returns (r: Result<GenerationResult>)
    requires rt.Valid()
    modifies rt
    ensures r.Err? <==> Prompt(m, req) == [] || |Prompt(m, req)| > m.context
    ensures r.Ok? ==> r.value == Streamed(m, req, accept, cancelAt)
    ensures rt.Valid() && rt.held == old(rt.held)
  {
    hide Continue;
    var id := rt.NewSequence();
    var sampler := m.newSampler(req.sampling);
    var prompt := m.encode(req.prompt, req.addBos);
    if prompt == [] {
      rt.Drop(id);
      return Err("empty prompt");
    }
    if |prompt| > m.context {
      rt.Drop(id);
      return Err("prompt exceeds the context length");
    }
    var row := Prefill(m, rt, id, prompt, cancelAt);
    if row.None? {
      rt.Drop(id);
      return Ok(GenerationResult("", [], |prompt|, 0, Cancelled));
    }
    var tokens, finish := DecodeLoop(m, rt, id, req.maxNew, accept, cancelAt, |prompt|, sampler, row);
    rt.Drop(id);
    r := Ok(GenerationResult(m.decode(tokens), tokens, |prompt|, |tokens|, finish));
  }
}
