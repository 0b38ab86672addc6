/** Many requests stepped together: `generate_batch`. */
module GenerationBatch {
  import opened Common
  import opened Generation

  // ---------------------------------------------------------------- one request, pass by pass

  /** The state of one request between two passes; `history` is what its sequence holds. */
  datatype Snap<S> = Snap(
    fed: nat, next: int, sampler: S, done: bool, tokens: seq<int>, finish: Finish, history: seq<int>)

  function Start<P, L, S>(m: Setup<P, L, S>, req: Request<P>): Snap<S> {
    Snap(0, -1, m.newSampler(req.sampling), false, [], Length, [])
  }

  function Finished<S>(s: Snap<S>, r: Finish): Snap<S> {
    s.(done := true, finish := r, history := [])
  }

  /** The token a request contributes to the next step. */
  function TokenFor(prompt: seq<int>, fed: nat, next: int): int {
    if fed < |prompt| then prompt[fed] else next
  }

  /** What the logits of a step do to one request. */
  function AfterLogits<P, L, S>(m: Setup<P, L, S>, req: Request<P>, s: Snap<S>, row: L): Snap<S> {
    var prompt := Prompt(m, req);
    var fed := if s.fed < |prompt| then s.fed + 1 else s.fed;
    if fed < |prompt| then s.(fed := fed)
    else if |s.tokens| >= req.maxNew then Finished(s.(fed := fed), Length)
    else
      var (next, sampler) := m.sample(s.sampler, row);
      if next == m.eos then Finished(s.(fed := fed, sampler := sampler), EndOfSequence)
      else
        var s' := s.(fed := fed, sampler := sampler, tokens := s.tokens + [next], next := next);
        if |s'.tokens| >= req.maxNew then Finished(s', Length) else s'
  }

  /** One pass of the batch loop as a single request sees it. */
  function Pass<P, L, S>(m: Setup<P, L, S>, req: Request<P>, s: Snap<S>): Snap<S> {
    if s.done then s
    else if |s.history| >= m.context then Finished(s, ContextFull)
    else
      var history := s.history + [TokenFor(Prompt(m, req), s.fed, s.next)];
      AfterLogits(m, req, s.(history := history), m.logits(history))
  }

  /** The request by itself after `passes` passes. */
  function Solo<P, L, S>(m: Setup<P, L, S>, req: Request<P>, passes: nat): Snap<S> {
    if passes == 0 then Start(m, req) else Pass(m, req, Solo(m, req, passes - 1))
  }

  /** The result of a request when the cancellation flag is seen from pass `cancelAt` on, if ever. */
  function Expected<P, L, S>(m: Setup<P, L, S>, req: Request<P>, cancelAt: Option<nat>): GenerationResult {
    if cancelAt.None? || Solo(m, req, cancelAt.value).done then Report(m, req, Generated(m, req, Always(), None))
    else Report(m, req, Outcome(Solo(m, req, cancelAt.value).tokens, Cancelled))
  }

  // ---------------------------------------------------------------- passes against the definition

  /** Passes a request can need: its prompt, its tokens, and one to notice a full context. */
  function Bound<P, L, S>(m: Setup<P, L, S>, req: Request<P>): nat {
    |Prompt(m, req)| + (if req.maxNew > 0 then req.maxNew else 0) + 1
  }

  predicate Admissible<P, L, S>(m: Setup<P, L, S>, req: Request<P>) {
    0 < |Prompt(m, req)| <= m.context && req.maxNew >= 0
  }

  /** While the prompt is fed the request only holds its prefix. */
  lemma {:induction false} SoloPrefill<P, L, S>(m: Setup<P, L, S>, req: Request<P>, k: nat)
    requires Admissible(m, req) && k < |Prompt(m, req)|
    ensures Solo(m, req, k) == Start(m, req).(fed := k, history := Prompt(m, req)[..k])
  {
    var prompt := Prompt(m, req);
    if k > 0 {
      SoloPrefill(m, req, k - 1);
      assert prompt[..k] == prompt[..k - 1] + [prompt[k - 1]];
    }
  }

  /** A request that is still decoding: its sequence holds the prompt and all its tokens but the last. */
  ghost predicate Decoding<P, L, S>(m: Setup<P, L, S>, req: Request<P>, s: Snap<S>) {
    var prompt := Prompt(m, req);
    && !s.done && s.fed == |prompt| && 0 < |s.tokens| < req.maxNew
    && s.next == s.tokens[|s.tokens| - 1]
    && s.history == prompt + s.tokens[..|s.tokens| - 1]
  }

  /** What is still to come for a decoding request. */
  ghost function Rest<P, L, S>(m: Setup<P, L, S>, req: Request<P>, s: Snap<S>): Outcome
  {
    if |s.history| >= m.context then Outcome(s.tokens, ContextFull)
    else Continue(m, req.maxNew, Always(), None, s.history + [s.next], s.sampler, s.tokens)
  }

  /** The request agrees with the definition: finished with its outcome, or on the way to it. */
  ghost predicate OnTrack<P, L, S>(m: Setup<P, L, S>, req: Request<P>, s: Snap<S>) {
    var goal := Generated(m, req, Always(), None);
    if s.done then Outcome(s.tokens, s.finish) == goal
    else Decoding(m, req, s) && Rest(m, req, s) == goal
  }

  /** The pass that feeds the last prompt token draws the first sample. */
  lemma LastPromptPass<P, L, S>(m: Setup<P, L, S>, req: Request<P>, s: Snap<S>)
    requires Admissible(m, req)
    requires var n := |Prompt(m, req)|; s == Start(m, req).(fed := n - 1, history := Prompt(m, req)[..n - 1])
    ensures var s' := Pass(m, req, s); OnTrack(m, req, s') && (!s'.done ==> |s'.tokens| == 1)
  {
    var prompt := Prompt(m, req);
    assert prompt == prompt[..|prompt| - 1] + [prompt[|prompt| - 1]];
    var s' := AfterLogits(m, req, s.(history := prompt), m.logits(prompt));
    assert Pass(m, req, s) == s';
    if !s'.done {
      assert prompt + s'.tokens[..0] == prompt;
    }
  }

  lemma FirstSample<P, L, S>(m: Setup<P, L, S>, req: Request<P>)
    requires Admissible(m, req)
    ensures var s := Solo(m, req, |Prompt(m, req)|); OnTrack(m, req, s) && (!s.done ==> |s.tokens| == 1)
  {
    hide OnTrack, Pass;
    SoloPrefill(m, req, |Prompt(m, req)| - 1);
    LastPromptPass(m, req, Solo(m, req, |Prompt(m, req)| - 1));
  }

  lemma PassOnTrack<P, L, S>(m: Setup<P, L, S>, req: Request<P>, s: Snap<S>)
    requires OnTrack(m, req, s)
    ensures var s' := Pass(m, req, s);
            OnTrack(m, req, s') && (!s'.done ==> !s.done && |s'.tokens| == |s.tokens| + 1)
  {
    if !s.done && |s.history| < m.context {
      var prompt := Prompt(m, req);
      var history := s.history + [s.next];
      assert history == prompt + s.tokens by {
        assert s.tokens == s.tokens[..|s.tokens| - 1] + [s.next];
      }
      var s' := Pass(m, req, s);
      if !s'.done {
        assert s'.tokens[..|s'.tokens| - 1] == s.tokens;
      }
    }
  }

  /** Enough passes finish a request, with the outcome of the definition, and it stays finished. */
  lemma {:induction false} SoloOnTrack<P, L, S>(m: Setup<P, L, S>, req: Request<P>, k: nat)
    requires Admissible(m, req) && k >= |Prompt(m, req)|
    ensures var s := Solo(m, req, k); OnTrack(m, req, s) && (!s.done ==> |s.tokens| == k - |Prompt(m, req)| + 1)
    decreases k
  {
    hide OnTrack, Pass;
    if k == |Prompt(m, req)| {
      FirstSample(m, req);
    } else {
      SoloOnTrack(m, req, k - 1);
      PassOnTrack(m, req, Solo(m, req, k - 1));
    }
  }

  /** No request outlives its bound. */
  lemma SoloEnds<P, L, S>(m: Setup<P, L, S>, req: Request<P>, k: nat)
    requires Admissible(m, req) && k >= Bound(m, req)
    ensures Solo(m, req, k).done
  {
    SoloOnTrack(m, req, k);
  }

  lemma SoloDone<P, L, S>(m: Setup<P, L, S>, req: Request<P>, k: nat)
    requires Admissible(m, req) && Solo(m, req, k).done
    ensures var s := Solo(m, req, k); Outcome(s.tokens, s.finish) == Generated(m, req, Always(), None)
  {
    if k < |Prompt(m, req)| {
      SoloPrefill(m, req, k);
    } else {
      SoloOnTrack(m, req, k);
    }
  }

  /** Cancelling loses a suffix of the tokens and nothing else. */
  lemma CancelledIsPrefix<P, L, S>(m: Setup<P, L, S>, req: Request<P>, cancelAt: nat)
    requires Admissible(m, req)
    ensures Expected(m, req, Some(cancelAt)).tokens <= Expected(m, req, None).tokens
  {
    var s := Solo(m, req, cancelAt);
    if !s.done {
      if cancelAt < |Prompt(m, req)| {
        SoloPrefill(m, req, cancelAt);
      } else {
        SoloOnTrack(m, req, cancelAt);
        StopIsPrefix(m, req.maxNew, Always(), 0, s.history + [s.next], s.sampler, s.tokens);
      }
    }
  }
}
