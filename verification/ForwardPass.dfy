/** The layer-by-layer pass over all positions, and the same computation one token at a time with a cache of
    keys and values. */
module ForwardPass {
  import opened Common
  import opened Reference

  // ---------------------------------------------------------------- one layer at one position

  function KvDim<F>(m: Model<F>): nat
    requires m.heads > 0
  {
    m.kvHeads * (m.dim / m.heads)
  }

  /** A layer of `m` and the facts about head counts every step needs. */
  ghost predicate Fits<F>(m: Model<F>, l: Layer<F>) {
    && m.heads > 0 && Heads(m.heads, m.kvHeads, HeadDim(m)) && m.heads * HeadDim(m) == m.dim
    && LayerShaped(l, m.dim, KvDim(m), m.ffn)
  }

  lemma LayersFit<F>(m: Model<F>, l: nat)
    requires ModelShaped(m) && l < |m.layers|
    ensures Fits(m, m.layers[l])
  {
    assert m.dim == m.heads * (m.dim / m.heads);
    assert m.heads * 0 == 0;
  }

  function Query<F, D>(ar: Arith<F, D>, m: Model<F>, l: Layer<F>, x: seq<F>, pos: nat): (r: seq<F>)
    requires Fits(m, l) && |x| == m.dim
    ensures |r| == m.dim
  {
    Roped(ar, MatVec(ar, l.q, Norm(ar, x, l.attnNorm)), m.heads, HeadDim(m), pos)
  }

  function KeyOf<F, D>(ar: Arith<F, D>, m: Model<F>, l: Layer<F>, x: seq<F>, pos: nat): (r: seq<F>)
    requires Fits(m, l) && |x| == m.dim
    ensures |r| == KvDim(m)
  {
    Roped(ar, MatVec(ar, l.k, Norm(ar, x, l.attnNorm)), m.kvHeads, HeadDim(m), pos)
  }

  function ValueOf<F, D>(ar: Arith<F, D>, m: Model<F>, l: Layer<F>, x: seq<F>): (r: seq<F>)
    requires Fits(m, l) && |x| == m.dim
    ensures |r| == KvDim(m)
  {
    MatVec(ar, l.v, Norm(ar, x, l.attnNorm))
  }

  function AfterAttention<F, D>(ar: Arith<F, D>, m: Model<F>, l: Layer<F>, x: seq<F>, q: seq<F>, ks: seq<seq<F>>,
                                vs: seq<seq<F>>): (r: seq<F>)
    requires Fits(m, l) && |x| == |q| == m.dim && |ks| == |vs| && Rows(ks, KvDim(m)) && Rows(vs, KvDim(m))
    ensures |r| == m.dim
  {
    Plus(ar, x, MatVec(ar, l.attnOut, Attention(ar, m.heads, m.kvHeads, HeadDim(m), q, ks, vs)))
  }

  function Gated<F, D>(ar: Arith<F, D>, g: seq<F>, u: seq<F>): (r: seq<F>)
    requires |g| == |u|
    ensures |r| == |g|
  {
    seq(|g|, i requires 0 <= i < |g| => ar.silu(g[i], u[i]))
  }

  function AfterFfn<F, D>(ar: Arith<F, D>, m: Model<F>, l: Layer<F>, x: seq<F>): (r: seq<F>)
    requires Fits(m, l) && |x| == m.dim
    ensures |r| == m.dim
  {
    var h := Norm(ar, x, l.ffnNorm);
    Plus(ar, x, MatVec(ar, l.down, Gated(ar, MatVec(ar, l.gate, h), MatVec(ar, l.up, h))))
  }

  /** One position through one layer, given the keys and values of all positions up to its own. */
  function Block<F, D>(ar: Arith<F, D>, m: Model<F>, l: Layer<F>, x: seq<F>, pos: nat, ks: seq<seq<F>>,
                       vs: seq<seq<F>>): (r: seq<F>)
    requires Fits(m, l) && |x| == m.dim && |ks| == |vs| && Rows(ks, KvDim(m)) && Rows(vs, KvDim(m))
    ensures |r| == m.dim
  {
    AfterFfn(ar, m, l, AfterAttention(ar, m, l, x, Query(ar, m, l, x, pos), ks, vs))
  }

  // ---------------------------------------------------------------- layer by layer

  /** Hidden states: one row of `dim` numbers per position. */
  function KeyRows<F, D>(ar: Arith<F, D>, m: Model<F>, l: Layer<F>, xs: seq<seq<F>>): (r: seq<seq<F>>)
    requires Fits(m, l) && Rows(xs, m.dim)
    ensures |r| == |xs| && Rows(r, KvDim(m))
  {
    seq(|xs|, t requires 0 <= t < |xs| => KeyOf(ar, m, l, xs[t], t))
  }

  function ValueRows<F, D>(ar: Arith<F, D>, m: Model<F>, l: Layer<F>, xs: seq<seq<F>>): (r: seq<seq<F>>)
    requires Fits(m, l) && Rows(xs, m.dim)
    ensures |r| == |xs| && Rows(r, KvDim(m))
  {
    seq(|xs|, t requires 0 <= t < |xs| => ValueOf(ar, m, l, xs[t]))
  }

  function LayerRows<F, D>(ar: Arith<F, D>, m: Model<F>, l: Layer<F>, xs: seq<seq<F>>): (r: seq<seq<F>>)
    requires Fits(m, l) && Rows(xs, m.dim)
    ensures |r| == |xs| && Rows(r, m.dim)
  {
    var ks, vs := KeyRows(ar, m, l, xs), ValueRows(ar, m, l, xs);
    seq(|xs|, t requires 0 <= t < |xs| => Block(ar, m, l, xs[t], t, ks[..t + 1], vs[..t + 1]))
  }

  predicate InVocab(tokens: seq<int>, vocab: nat) {
    forall t: nat | t < |tokens| :: 0 <= tokens[t] < vocab
  }

  /** The hidden states after the first `l` layers, layer by layer over all positions. */
  function Hidden<F, D>(ar: Arith<F, D>, m: Model<F>, tokens: seq<int>, l: nat): (r: seq<seq<F>>)
    requires ModelShaped(m) && InVocab(tokens, m.vocab) && l <= |m.layers|
    ensures |r| == |tokens| && Rows(r, m.dim)
  {
    if l == 0 then seq(|tokens|, t requires 0 <= t < |tokens| => m.embedding[tokens[t]])
    else
      LayersFit(m, l - 1);
      LayerRows(ar, m, m.layers[l - 1], Hidden(ar, m, tokens, l - 1))
  }

  function Logits<F, D>(ar: Arith<F, D>, m: Model<F>, tokens: seq<int>): (r: seq<F>)
    requires ModelShaped(m) && InVocab(tokens, m.vocab) && tokens != []
    ensures |r| == m.vocab
  {
    var rows := Hidden(ar, m, tokens, |m.layers|);
    MatVec(ar, m.output, Norm(ar, rows[|tokens| - 1], m.outNorm))
  }

  // ---------------------------------------------------------------- the methods

  /** Queries, keys and values of every position. */
  method Project<F, D>(ar: Arith<F, D>, m: Model<F>, l: Layer<F>, xs: seq<seq<F>>)
    returns (qs: seq<seq<F>>, ks: seq<seq<F>>, vs: seq<seq<F>>)
    requires Fits(m, l) && Rows(xs, m.dim)
    ensures |qs| == |xs| && forall t: nat | t < |xs| :: qs[t] == Query(ar, m, l, xs[t], t)
    ensures ks == KeyRows(ar, m, l, xs) && vs == ValueRows(ar, m, l, xs)
  {
    hide MatVec, Norm, Roped;
    qs, ks, vs := [], [], [];
    for t := 0 to |xs|
      invariant |qs| == |ks| == |vs| == t
      invariant forall s: nat | s < t :: qs[s] == Query(ar, m, l, xs[s], s)
      invariant forall s: nat | s < t :: ks[s] == KeyOf(ar, m, l, xs[s], s)
      invariant forall s: nat | s < t :: vs[s] == ValueOf(ar, m, l, xs[s])
    {
      var h := RmsNorm(ar, xs[t], l.attnNorm);
      var q := Mul(ar, l.q, h);
      var k := Mul(ar, l.k, h);
      var v := Mul(ar, l.v, h);
      q := Rope(ar, q, m.heads, HeadDim(m), t);
      k := Rope(ar, k, m.kvHeads, HeadDim(m), t);
      qs, ks, vs := qs + [q], ks + [k], vs + [v];
    }
  }

  method FeedForward<F, D>(ar: Arith<F, D>, m: Model<F>, l: Layer<F>, x: seq<F>) returns (y: seq<F>)
    requires Fits(m, l) && |x| == m.dim
    ensures y == AfterFfn(ar, m, l, x)
  {
    hide MatVec, Norm, Plus;
    var h := RmsNorm(ar, x, l.ffnNorm);
    var g := Mul(ar, l.gate, h);
    var u := Mul(ar, l.up, h);
    ghost var g0 := g;
    for i := 0 to |g|
      invariant |g| == |g0|
      invariant forall j: nat | j < |g| :: g[j] == if j < i then ar.silu(g0[j], u[j]) else g0[j]
    {
      g := g[i := ar.silu(g[i], u[i])];
    }
    assert g == Gated(ar, g0, u);
    var d := Mul(ar, l.down, g);
    y := AddInto(ar, x, d);
  }

  /** One layer over all positions, the residual rows updated in place. */
  method RunLayer<F, D>(ar: Arith<F, D>, m: Model<F>, l: Layer<F>, xs0: seq<seq<F>>) returns (xs: seq<seq<F>>)
    requires Fits(m, l) && Rows(xs0, m.dim)
    ensures xs == LayerRows(ar, m, l, xs0)
  {
    hide MatVec, Attention, Plus, Query, KeyOf, ValueOf, AfterFfn;
    xs := xs0;
    var qs, ks, vs := Project(ar, m, l, xs);
    for t := 0 to |xs|
      invariant |xs| == |xs0|
      invariant forall s: nat | s < |xs| ::
                  xs[s] == if s < t then AfterAttention(ar, m, l, xs0[s], qs[s], ks[..s + 1], vs[..s + 1]) else xs0[s]
    {
      var att := Attend(ar, m.heads, m.kvHeads, HeadDim(m), qs[t], ks[..t + 1], vs[..t + 1]);
      var o := Mul(ar, l.attnOut, att);
      var row := AddInto(ar, xs[t], o);
      xs := xs[t := row];
    }
    ghost var mid := xs;
    for t := 0 to |xs|
      invariant |xs| == |mid|
      invariant forall s: nat | s < |xs| :: xs[s] == if s < t then AfterFfn(ar, m, l, mid[s]) else mid[s]
    {
      var row := FeedForward(ar, m, l, xs[t]);
      xs := xs[t := row];
    }
  }

  /** `reference_logits`. */
  method ReferenceLogits<F, D>(ar: Arith<F, D>, m: Model<F>, tokens: seq<int>) returns (r: Result<seq<F>>)
    requires ModelShaped(m) && InVocab(tokens, m.vocab)
    ensures tokens == [] <==> r.Err?
    ensures tokens != [] ==> r == Ok(Logits(ar, m, tokens))
  {
    hide LayerRows, MatVec, Norm;
    if tokens == [] {
      return Err("no tokens");
    }
    var xs := seq(|tokens|, t requires 0 <= t < |tokens| => m.embedding[tokens[t]]);
    for l := 0 to |m.layers|
      invariant xs == Hidden(ar, m, tokens, l)
    {
      LayersFit(m, l);
      xs := RunLayer(ar, m, m.layers[l], xs);
    }
    var hidden := RmsNorm(ar, xs[|tokens| - 1], m.outNorm);
    var logits := Mul(ar, m.output, hidden);
    r := Ok(logits);
  }
}
