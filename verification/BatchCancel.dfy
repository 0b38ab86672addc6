/** When a request of a batch is finished, and what cancelling it leaves. */
module BatchCancel {
  import opened Common
  import opened Generation
  import opened GenerationBatch
  import StreamLaws

  /** Passes a request takes: one per prompt token, the last of which draws the first token, then one per token; a
      stop other than the limit is noticed in a pass of its own. */
  function Passes<P, L, S>(m: Setup<P, L, S>, req: Request<P>): nat {
    var all := Generated(m, req, Always(), None);
    |Prompt(m, req)| + |all.tokens| - (if all.finish == Length && all.tokens != [] then 1 else 0)
  }

  /** The pass that finishes a decoding request adds its last token or notices that there is none. */
  lemma LastPass<P, L, S>(m: Setup<P, L, S>, req: Request<P>, s: Snap<S>)
    requires Decoding(m, req, s) && Pass(m, req, s).done
    ensures var s' := Pass(m, req, s);
            if s'.finish == Length then |s'.tokens| == |s.tokens| + 1 else s'.tokens == s.tokens
  {
  }

  lemma FirstPass<P, L, S>(m: Setup<P, L, S>, req: Request<P>, s: Snap<S>)
    requires Admissible(m, req) && s == Start(m, req).(fed := |Prompt(m, req)| - 1, history := s.history)
    requires |s.history| == |Prompt(m, req)| - 1 && Pass(m, req, s).done
    ensures var s' := Pass(m, req, s);
            |s'.tokens| == if s'.finish == Length && s'.tokens != [] then 1 else 0
  {
  }

  lemma UnfinishedDecodes<P, L, S>(m: Setup<P, L, S>, req: Request<P>, k: nat)
    requires Admissible(m, req) && k >= |Prompt(m, req)| && !Solo(m, req, k).done
    ensures Decoding(m, req, Solo(m, req, k)) && |Solo(m, req, k).tokens| == k - |Prompt(m, req)| + 1
  {
    SoloOnTrack(m, req, k);
  }

  /** An unfinished request holds the first tokens of its result. */
  lemma UnfinishedTokens<P, L, S>(m: Setup<P, L, S>, req: Request<P>, k: nat)
    requires Admissible(m, req) && !Solo(m, req, k).done
    ensures var n := |Prompt(m, req)|; var s := Solo(m, req, k); var all := Generated(m, req, Always(), None);
            |s.tokens| == (if k < n then 0 else k - n + 1) && s.tokens <= all.tokens && k < Passes(m, req)
  {
    hide Generated, Solo, Decoding, Pass;
    var n := |Prompt(m, req)|;
    var all := Generated(m, req, Always(), None);
    CancelledIsPrefix(m, req, k);
    if k < n {
      SoloPrefill(m, req, k);
    } else {
      UnfinishedDecodes(m, req, k);
      DecodingRoom(m, req, Solo(m, req, k));
      StreamLaws.Reasons(m, req, Always(), None);
    }
  }

  lemma DecodingRoom<P, L, S>(m: Setup<P, L, S>, req: Request<P>, s: Snap<S>)
    requires Decoding(m, req, s)
    ensures 0 < |s.tokens| < req.maxNew
  {
  }

  lemma {:induction false} FinishedPasses<P, L, S>(m: Setup<P, L, S>, req: Request<P>, k: nat)
    requires Admissible(m, req) && Solo(m, req, k).done
    ensures k >= Passes(m, req)
    decreases k
  {
    hide Generated, Decoding, Pass;
    var n := |Prompt(m, req)|;
    SoloDone(m, req, k);
    if k < n {
      SoloPrefill(m, req, k);
    } else if k == n {
      SoloPrefill(m, req, k - 1);
      FirstPass(m, req, Solo(m, req, k - 1));
    } else if Solo(m, req, k - 1).done {
      FinishedPasses(m, req, k - 1);
    } else {
      UnfinishedDecodes(m, req, k - 1);
      LastPass(m, req, Solo(m, req, k - 1));
    }
  }

  /** Cancelling a batch, exactly: from the pass that finishes a request on nothing changes; before it, what was
      generated so far comes back, none during the prompt and one token per pass from its last token on. */
  lemma CancelExact<P, L, S>(m: Setup<P, L, S>, req: Request<P>, cancelAt: nat)
    requires Admissible(m, req)
    ensures var all, cut := Expected(m, req, None), Expected(m, req, Some(cancelAt));
            if cancelAt >= Passes(m, req) then cut == all
            else
              var n := |Prompt(m, req)|;
              var made := if cancelAt < n then 0 else cancelAt - n + 1;
              && made <= |all.tokens|
              && cut == GenerationResult(m.decode(all.tokens[..made]), all.tokens[..made], n, made, Cancelled)
  {
    hide Generated, Solo, Passes;
    if Solo(m, req, cancelAt).done {
      FinishedPasses(m, req, cancelAt);
    } else {
      UnfinishedTokens(m, req, cancelAt);
      var s, all := Solo(m, req, cancelAt), Generated(m, req, Always(), None);
      assert s.tokens == all.tokens[..|s.tokens|];
    }
  }
}
