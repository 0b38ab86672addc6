/** What a stream of tokens is, without its loop: which token comes next, and where the stream stops and why. */
module StreamLaws {
  import opened Common
  import opened Generation

  // ---------------------------------------------------------------- draws and verdicts

  /** The sampler after it has drawn `n` tokens, each from the logits of the prompt and the tokens before it. */
  function Sampler<P, L, S>(m: Setup<P, L, S>, req: Request<P>, tokens: seq<int>, n: nat): S
    requires n <= |tokens|
  {
    if n == 0 then m.newSampler(req.sampling)
    else m.sample(Sampler(m, req, tokens, n - 1), m.logits(Prompt(m, req) + tokens[..n - 1])).1
  }

  /** The token that follows the first `n`. */
  function Draw<P, L, S>(m: Setup<P, L, S>, req: Request<P>, tokens: seq<int>, n: nat): int
    requires n <= |tokens|
  {
    m.sample(Sampler(m, req, tokens, n), m.logits(Prompt(m, req) + tokens[..n])).0
  }

  /** Every token is the one the sampler drew, and none is the end of the sequence. */
  ghost predicate Drawn<P, L, S>(m: Setup<P, L, S>, req: Request<P>, tokens: seq<int>) {
    forall i: nat | i < |tokens| :: tokens[i] == Draw(m, req, tokens, i) != m.eos
  }

  /** Why a stream stops behind `tokens`, in the order the reasons are noticed; nothing when it goes on. The flag is
      seen once `stop` tokens are there. */
  function Verdict<P, L, S>(m: Setup<P, L, S>, req: Request<P>, accept: seq<int> -> bool, stop: Option<nat>,
                            tokens: seq<int>): Option<Finish> {
    if tokens != [] && !accept(tokens) then Some(Cancelled)
    else if |tokens| >= req.maxNew then Some(Length)
    else if tokens != [] && |Prompt(m, req)| + |tokens| > m.context then Some(ContextFull)
    else if stop.Some? && stop.value <= |tokens| then Some(Cancelled)
    else if Draw(m, req, tokens, |tokens|) == m.eos then Some(EndOfSequence)
    else None
  }

  ghost predicate GoesOn<P, L, S>(m: Setup<P, L, S>, req: Request<P>, accept: seq<int> -> bool, stop: Option<nat>,
                                  tokens: seq<int>, n: nat)
    requires n <= |tokens|
  {
    Verdict(m, req, accept, stop, tokens[..n]).None?
  }

  /** The drawn tokens up to the first reason to stop, and that reason. */
  ghost predicate StreamOf<P, L, S>(m: Setup<P, L, S>, req: Request<P>, accept: seq<int> -> bool, stop: Option<nat>,
                                    o: Outcome) {
    && Drawn(m, req, o.tokens)
    && (forall n: nat | n < |o.tokens| :: GoesOn(m, req, accept, stop, o.tokens, n))
    && Verdict(m, req, accept, stop, o.tokens) == Some(o.finish)
  }

  // ---------------------------------------------------------------- the definition is that stream

  lemma {:induction false} SamplerPrefix<P, L, S>(m: Setup<P, L, S>, req: Request<P>, s: seq<int>, t: seq<int>, n: nat)
    requires n <= |s| && n <= |t| && s[..n] == t[..n]
    ensures Sampler(m, req, s, n) == Sampler(m, req, t, n) && Draw(m, req, s, n) == Draw(m, req, t, n)
  {
    if n > 0 {
      assert s[..n - 1] == s[..n][..n - 1] && t[..n - 1] == t[..n][..n - 1];
      SamplerPrefix(m, req, s, t, n - 1);
    }
  }

  /** Sampling on from a stream that has not stopped. */
  lemma {:induction false} ContinueIsStream<P, L, S>(m: Setup<P, L, S>, req: Request<P>, accept: seq<int> -> bool,
                                                     stop: Option<nat>, tokens: seq<int>)
    requires Drawn(m, req, tokens) && forall n: nat | n < |tokens| :: GoesOn(m, req, accept, stop, tokens, n)
    requires tokens != [] ==> accept(tokens) && |tokens| < req.maxNew && |Prompt(m, req)| + |tokens| <= m.context
    ensures StreamOf(m, req, accept, stop, Continue(m, req.maxNew, accept, stop, Prompt(m, req) + tokens,
                                                    Sampler(m, req, tokens, |tokens|), tokens))
    decreases req.maxNew - |tokens|
  {
    assert tokens[..|tokens|] == tokens;
    if Verdict(m, req, accept, stop, tokens).None? {
      var next := Draw(m, req, tokens, |tokens|);
      var more := tokens + [next];
      DrawnSnoc(m, req, tokens);
      GoesOnSnoc(m, req, accept, stop, tokens, next);
      SamplerSnoc(m, req, tokens, next);
      assert Prompt(m, req) + tokens + [next] == Prompt(m, req) + more;
      if accept(more) && |more| < req.maxNew && |Prompt(m, req)| + |more| <= m.context {
        ContinueIsStream(m, req, accept, stop, more);
      }
    }
  }

  lemma DrawnSnoc<P, L, S>(m: Setup<P, L, S>, req: Request<P>, tokens: seq<int>)
    requires Drawn(m, req, tokens) && Draw(m, req, tokens, |tokens|) != m.eos
    ensures Drawn(m, req, tokens + [Draw(m, req, tokens, |tokens|)])
  {
    hide Draw, Sampler;
    var more := tokens + [Draw(m, req, tokens, |tokens|)];
    forall i: nat | i < |more|
      ensures more[i] == Draw(m, req, more, i) != m.eos
    {
      assert more[..i] == tokens[..i];
      SamplerPrefix(m, req, tokens, more, i);
    }
  }

  lemma GoesOnSnoc<P, L, S>(m: Setup<P, L, S>, req: Request<P>, accept: seq<int> -> bool, stop: Option<nat>,
                            tokens: seq<int>, next: int)
    requires forall n: nat | n < |tokens| :: GoesOn(m, req, accept, stop, tokens, n)
    requires Verdict(m, req, accept, stop, tokens).None?
    ensures forall n: nat | n < |tokens| + 1 :: GoesOn(m, req, accept, stop, tokens + [next], n)
  {
    hide Verdict;
    forall n: nat | n < |tokens| + 1
      ensures GoesOn(m, req, accept, stop, tokens + [next], n)
    {
      assert (tokens + [next])[..n] == tokens[..n];
      if n == |tokens| { assert tokens[..n] == tokens; } else { assert GoesOn(m, req, accept, stop, tokens, n); }
    }
  }

  lemma SamplerSnoc<P, L, S>(m: Setup<P, L, S>, req: Request<P>, tokens: seq<int>, next: int)
    ensures Sampler(m, req, tokens + [next], |tokens| + 1) ==
            m.sample(Sampler(m, req, tokens, |tokens|), m.logits(Prompt(m, req) + tokens)).1
  {
    assert (tokens + [next])[..|tokens|] == tokens == tokens[..|tokens|];
    SamplerPrefix(m, req, tokens + [next], tokens, |tokens|);
  }

  /** Two runs of draws agree as far as both reach. */
  lemma {:induction false} DrawsAgree<P, L, S>(m: Setup<P, L, S>, req: Request<P>, s: seq<int>, t: seq<int>, n: nat)
    requires Drawn(m, req, s) && Drawn(m, req, t) && n <= |s| && n <= |t|
    ensures s[..n] == t[..n]
  {
    hide Draw, Sampler;
    if n > 0 {
      DrawsAgree(m, req, s, t, n - 1);
      SamplerPrefix(m, req, s, t, n - 1);
      assert s[n - 1] == Draw(m, req, s, n - 1) && t[n - 1] == Draw(m, req, t, n - 1);
      assert s[..n] == s[..n - 1] + [s[n - 1]] && t[..n] == t[..n - 1] + [t[n - 1]];
    }
  }

  lemma StopsNowhereBefore<P, L, S>(m: Setup<P, L, S>, req: Request<P>, accept: seq<int> -> bool, stop: Option<nat>,
                                    tokens: seq<int>, n: nat)
    requires forall k: nat | k < |tokens| :: GoesOn(m, req, accept, stop, tokens, k)
    ensures n < |tokens| ==> Verdict(m, req, accept, stop, tokens[..n]).None?
  {
    hide Verdict;
    assert n < |tokens| ==> GoesOn(m, req, accept, stop, tokens, n);
  }

  /** The shorter of two runs of draws is a prefix of the longer one. */
  lemma DrawsPrefix<P, L, S>(m: Setup<P, L, S>, req: Request<P>, s: seq<int>, t: seq<int>)
    requires Drawn(m, req, s) && Drawn(m, req, t)
    ensures |s| <= |t| ==> s == t[..|s|]
    ensures |t| <= |s| ==> t == s[..|t|]
  {
    hide Drawn;
    var n := if |s| < |t| then |s| else |t|;
    DrawsAgree(m, req, s, t, n);
    assert s[..|s|] == s && t[..|t|] == t;
  }

  lemma NotLonger<P, L, S>(m: Setup<P, L, S>, req: Request<P>, accept: seq<int> -> bool, stop: Option<nat>,
                           o: Outcome, other: Outcome)
    requires StreamOf(m, req, accept, stop, o) && StreamOf(m, req, accept, stop, other)
    ensures |o.tokens| <= |other.tokens|
  {
    hide Drawn, Verdict, GoesOn;
    DrawsPrefix(m, req, o.tokens, other.tokens);
    StopsNowhereBefore(m, req, accept, stop, o.tokens, |other.tokens|);
  }

  /** The loop's result, exactly: the drawn tokens up to the first reason to stop, with that reason. */
  lemma GeneratedIsStream<P, L, S>(m: Setup<P, L, S>, req: Request<P>, accept: seq<int> -> bool, stop: Option<nat>,
                                   o: Outcome)
    ensures StreamOf(m, req, accept, stop, o) <==> o == Generated(m, req, accept, stop)
  {
    hide Continue, Drawn, Verdict;
    var made := Generated(m, req, accept, stop);
    assert Prompt(m, req) + [] == Prompt(m, req);
    NothingDrawn(m, req);
    ContinueIsStream(m, req, accept, stop, []);
    if StreamOf(m, req, accept, stop, o) {
      NotLonger(m, req, accept, stop, o, made);
      NotLonger(m, req, accept, stop, made, o);
      DrawsPrefix(m, req, o.tokens, made.tokens);
      assert made.tokens[..|o.tokens|] == made.tokens;
    }
  }

  lemma NothingDrawn<P, L, S>(m: Setup<P, L, S>, req: Request<P>)
    ensures Drawn(m, req, []) && Sampler(m, req, [], 0) == m.newSampler(req.sampling)
  {
  }

  // ---------------------------------------------------------------- callbacks

  /** Every proper non-empty prefix of a stream was accepted, and a stream that ends with a refused one was
      cancelled. */
  lemma PrefixesAccepted<P, L, S>(m: Setup<P, L, S>, req: Request<P>, accept: seq<int> -> bool, cancelAt: Option<nat>)
    ensures var r := Streamed(m, req, accept, cancelAt);
            && (forall n: nat | 0 < n < |r.tokens| :: accept(r.tokens[..n]))
            && (r.tokens != [] && !accept(r.tokens) ==> r.finish == Cancelled)
  {
    hide Generated, Drawn;
    var n := |Prompt(m, req)|;
    var stop := if cancelAt.Some? && cancelAt.value >= n then Some(cancelAt.value - n) else None;
    var o := Generated(m, req, accept, stop);
    GeneratedIsStream(m, req, accept, stop, o);
    forall k: nat | 0 < k < |o.tokens|
      ensures accept(o.tokens[..k])
    {
      assert GoesOn(m, req, accept, stop, o.tokens, k);
    }
  }

  /** A callback cuts the uncut stream behind the first tokens it refuses, and changes nothing when it refuses none. */
  lemma CallbackCuts<P, L, S>(m: Setup<P, L, S>, req: Request<P>, accept: seq<int> -> bool)
    ensures var r, all := Streamed(m, req, accept, None), Streamed(m, req, Always(), None);
            && r.tokens <= all.tokens
            && (forall n: nat | 0 < n < |r.tokens| :: accept(r.tokens[..n]))
            && if r.tokens != [] && !accept(r.tokens) then r.finish == Cancelled else r == all
  {
    hide Generated, Drawn;
    PrefixesAccepted(m, req, accept, None);
    var o, all := Generated(m, req, accept, None), Generated(m, req, Always(), None);
    GeneratedIsStream(m, req, accept, None, o);
    GeneratedIsStream(m, req, Always(), None, all);
    if o.tokens == [] || accept(o.tokens) {
      Unrefused(m, req, accept, o);
      GeneratedIsStream(m, req, Always(), None, o);
    } else {
      DrawnPrefix(m, req, accept, o, all);
    }
  }

  /** A stream that was never refused is a stream of the callback that refuses nothing. */
  lemma Unrefused<P, L, S>(m: Setup<P, L, S>, req: Request<P>, accept: seq<int> -> bool, o: Outcome)
    requires StreamOf(m, req, accept, None, o) && (o.tokens == [] || accept(o.tokens))
    ensures StreamOf(m, req, Always(), None, o)
  {
    hide Drawn, Draw;
    forall n: nat | n < |o.tokens|
      ensures GoesOn(m, req, Always(), None, o.tokens, n)
    {
      assert GoesOn(m, req, accept, None, o.tokens, n);
    }
  }

  lemma DrawnPrefix<P, L, S>(m: Setup<P, L, S>, req: Request<P>, accept: seq<int> -> bool, o: Outcome, all: Outcome)
    requires StreamOf(m, req, accept, None, o) && StreamOf(m, req, Always(), None, all)
    ensures o.tokens <= all.tokens
  {
    hide Drawn, Draw;
    DrawsPrefix(m, req, o.tokens, all.tokens);
    StopsNowhereBefore(m, req, accept, None, o.tokens, |all.tokens|);
  }

  // ---------------------------------------------------------------- tokens and reasons

  /** Each token is the draw from the logits of the prompt and the tokens before it, by the sampler those draws left;
      none is the end of the sequence; and there are no more of them than the limit and the context allow. */
  lemma TokensAreDraws<P, L, S>(m: Setup<P, L, S>, req: Request<P>, accept: seq<int> -> bool, cancelAt: Option<nat>)
    ensures var r := Streamed(m, req, accept, cancelAt);
            && (forall i: nat | i < |r.tokens| :: r.tokens[i] == Draw(m, req, r.tokens, i) != m.eos)
            && (r.tokens != [] ==> |r.tokens| <= req.maxNew)
            && (|r.tokens| > 1 ==> |Prompt(m, req)| + |r.tokens| <= m.context + 1)
            && (r.tokens != [] && cancelAt.Some? ==> |Prompt(m, req)| + |r.tokens| <= cancelAt.value)
            && r.generated == |r.tokens| && r.promptTokens == |Prompt(m, req)|
  {
    hide Generated, Draw;
    var n := |Prompt(m, req)|;
    var stop := if cancelAt.Some? && cancelAt.value >= n then Some(cancelAt.value - n) else None;
    var o := Generated(m, req, accept, stop);
    GeneratedIsStream(m, req, accept, stop, o);
    if o.tokens != [] { assert GoesOn(m, req, accept, stop, o.tokens, |o.tokens| - 1); }
  }

  /** What each reason says: the limit is reached, the next draw is the end of the sequence, the context has no room
      for the last token, or the callback or the flag stopped it. A flag seen during the prompt leaves nothing. */
  lemma Reasons<P, L, S>(m: Setup<P, L, S>, req: Request<P>, accept: seq<int> -> bool, cancelAt: Option<nat>)
    ensures var r := Streamed(m, req, accept, cancelAt); var n := |Prompt(m, req)|;
            if cancelAt.Some? && cancelAt.value < n then r.tokens == [] && r.text == "" && r.finish == Cancelled
            else
              && r.text == m.decode(r.tokens)
              && match r.finish
                 case Length => |r.tokens| >= req.maxNew
                 case EndOfSequence => |r.tokens| < req.maxNew && Draw(m, req, r.tokens, |r.tokens|) == m.eos
                 case ContextFull => 0 < |r.tokens| < req.maxNew && n + |r.tokens| > m.context
                 case Cancelled => (r.tokens != [] && !accept(r.tokens)) || cancelAt == Some(n + |r.tokens|)
  {
    hide Generated, Draw;
    var n := |Prompt(m, req)|;
    var stop := if cancelAt.Some? && cancelAt.value >= n then Some(cancelAt.value - n) else None;
    var o := Generated(m, req, accept, stop);
    GeneratedIsStream(m, req, accept, stop, o);
    if o.tokens != [] { assert GoesOn(m, req, accept, stop, o.tokens, |o.tokens| - 1); }
  }
}
