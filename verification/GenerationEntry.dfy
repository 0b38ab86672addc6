/** `generate` as callers see it, and how its two paths compare. */
module GenerationEntry {
  import opened Common
  import opened Generation
  import opened GenerationBatch
  import opened BatchLoop
  import StreamLaws

  /** The callback accepted the tokens after every one but perhaps the last, and refusing the last cancelled. */
  ghost predicate AcceptedUpTo(accept: seq<int> -> bool, r: GenerationResult) {
    && (forall n: nat | 0 < n < |r.tokens| :: accept(r.tokens[..n]))
    && (r.tokens != [] && !accept(r.tokens) ==> r.finish == Cancelled)
  }

  /** `generate`: without a callback a batch of one, with one the streaming loop. */
  method GenerateAny<P, L, S>(m: Setup<P, L, S>, rt: Runtime, req: Request<P>, onToken: Option<seq<int> -> bool>,
                              cancelAt: Option<nat>)
    returns (r: Result<GenerationResult>)
    requires rt.Valid()
    modifies rt
    ensures onToken.None? ==> (r.Err? <==> m.maxBatch < 1 || !Admissible(m, req))
    ensures onToken.Some? ==> (r.Err? <==> Prompt(m, req) == [] || |Prompt(m, req)| > m.context)
    ensures r.Ok? ==>
              r.value == if onToken.None? then Expected(m, req, cancelAt) else Streamed(m, req, onToken.value, cancelAt)
    ensures r.Ok? && onToken.Some? ==> AcceptedUpTo(onToken.value, r.value)
    ensures rt.Valid() && rt.held == old(rt.held)
  {
    hide Admissible, Expected, Streamed;
    if onToken.None? {
      var all := GenerateBatch(m, rt, [req], cancelAt);
      if all.Err? {
        return Err(all.reason);
      }
      return Ok(all.value[0]);
    }
    StreamLaws.PrefixesAccepted(m, req, onToken.value, cancelAt);
    r := Generate(m, rt, req, onToken.value, cancelAt);
  }

  /** The same request both ways, nothing cancelled and the callback always true. The results agree; what the batch
      rejects beyond the stream is a negative token limit and a runtime without room for one request. */
  method BothWays<P, L, S>(m: Setup<P, L, S>, rt: Runtime, req: Request<P>)
    returns (stream: Result<GenerationResult>, batch: Result<seq<GenerationResult>>)
    requires rt.Valid()
    modifies rt
    ensures batch.Ok? <==> stream.Ok? && req.maxNew >= 0 && m.maxBatch >= 1
    ensures batch.Ok? ==> batch.value == [stream.value]
    ensures stream.Ok? && req.maxNew < 0 ==> stream.value.tokens == [] && stream.value.finish == Length
    ensures rt.Valid() && rt.held == old(rt.held)
  {
    hide Generated;
    NegativeLimit(m, req);
    assert [req][0] == req;
    stream := Generate(m, rt, req, Always(), None);
    batch := GenerateBatch(m, rt, [req], None);
  }

  lemma NegativeLimit<P, L, S>(m: Setup<P, L, S>, req: Request<P>)
    ensures req.maxNew < 0 ==> Generated(m, req, Always(), None) == Outcome([], Length)
  {
  }
}
