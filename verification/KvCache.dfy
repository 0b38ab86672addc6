/** Causality of the reference pass, and the token-by-token pass that caches keys and values. */
module KvCache {
  import opened Reference
  import opened ForwardPass

  /** The keys and values of one layer, one row per position so far. */
  datatype LayerCache<F> = LayerCache(ks: seq<seq<F>>, vs: seq<seq<F>>)

  ghost predicate CacheOk<F>(m: Model<F>, cache: seq<LayerCache<F>>, pos: nat)
    requires ModelShaped(m)
  {
    |cache| == |m.layers| && forall l: nat | l < |cache| ::
      && |cache[l].ks| == |cache[l].vs| == pos
      && Rows(cache[l].ks, KvDim(m)) && Rows(cache[l].vs, KvDim(m))
  }

  function NoCache<F>(m: Model<F>): seq<LayerCache<F>> {
    seq(|m.layers|, _ => LayerCache([], []))
  }

  datatype Progress<F> = Progress(x: seq<F>, cache: seq<LayerCache<F>>)

  /** One token through the first `l` layers: each appends its key and value and attends to its cache. */
  ghost function CachedLayers<F, D>(ar: Arith<F, D>, m: Model<F>, cache: seq<LayerCache<F>>, pos: nat, token: int,
                                    l: nat): (p: Progress<F>)
    requires ModelShaped(m) && CacheOk(m, cache, pos) && 0 <= token < m.vocab && l <= |m.layers|
    ensures |p.x| == m.dim && |p.cache| == l
    ensures forall i: nat | i < l ::
              && |p.cache[i].ks| == |p.cache[i].vs| == pos + 1
              && Rows(p.cache[i].ks, KvDim(m)) && Rows(p.cache[i].vs, KvDim(m))
  {
    if l == 0 then Progress(m.embedding[token], [])
    else
      LayersFit(m, l - 1);
      var before := CachedLayers(ar, m, cache, pos, token, l - 1);
      var layer := m.layers[l - 1];
      var ks := cache[l - 1].ks + [KeyOf(ar, m, layer, before.x, pos)];
      var vs := cache[l - 1].vs + [ValueOf(ar, m, layer, before.x)];
      Progress(Block(ar, m, layer, before.x, pos, ks, vs), before.cache + [LayerCache(ks, vs)])
  }

  /** The cache after a sequence of tokens, fed one at a time. */
  ghost function CachedRun<F, D>(ar: Arith<F, D>, m: Model<F>, tokens: seq<int>): (cache: seq<LayerCache<F>>)
    requires ModelShaped(m) && InVocab(tokens, m.vocab)
    ensures CacheOk(m, cache, |tokens|)
  {
    if tokens == [] then NoCache(m)
    else
      var n := |tokens| - 1;
      CachedLayers(ar, m, CachedRun(ar, m, tokens[..n]), n, tokens[n], |m.layers|).cache
  }

  /** Next-token logits of the cached pass after its last token. */
  ghost function CachedLogits<F, D>(ar: Arith<F, D>, m: Model<F>, tokens: seq<int>): seq<F>
    requires ModelShaped(m) && InVocab(tokens, m.vocab) && tokens != []
  {
    var n := |tokens| - 1;
    var p := CachedLayers(ar, m, CachedRun(ar, m, tokens[..n]), n, tokens[n], |m.layers|);
    MatVec(ar, m.output, Norm(ar, p.x, m.outNorm))
  }

  // ---------------------------------------------------------------- causality

  /** Rows of a layer depend on no later row. */
  lemma LayerPrefix<F, D>(ar: Arith<F, D>, m: Model<F>, l: Layer<F>, xs: seq<seq<F>>, n: nat)
    requires Fits(m, l) && Rows(xs, m.dim) && n <= |xs|
    ensures Rows(xs[..n], m.dim)
    ensures KeyRows(ar, m, l, xs)[..n] == KeyRows(ar, m, l, xs[..n])
    ensures ValueRows(ar, m, l, xs)[..n] == ValueRows(ar, m, l, xs[..n])
    ensures LayerRows(ar, m, l, xs)[..n] == LayerRows(ar, m, l, xs[..n])
  {
    hide KeyOf, ValueOf, Block;
    var ks, vs := KeyRows(ar, m, l, xs), ValueRows(ar, m, l, xs);
    assert ks[..n] == KeyRows(ar, m, l, xs[..n]);
    assert vs[..n] == ValueRows(ar, m, l, xs[..n]);
    var all, some := LayerRows(ar, m, l, xs), LayerRows(ar, m, l, xs[..n]);
    forall t: nat | t < n
      ensures all[..n][t] == some[t]
    {
      assert ks[..n][..t + 1] == ks[..t + 1] && vs[..n][..t + 1] == vs[..t + 1];
    }
  }

  /** Causality: the hidden states of a prefix are the prefix of the hidden states, after every layer. */
  lemma {:induction false} HiddenPrefix<F, D>(ar: Arith<F, D>, m: Model<F>, tokens: seq<int>, n: nat, l: nat)
    requires ModelShaped(m) && InVocab(tokens, m.vocab) && n <= |tokens| && l <= |m.layers|
    ensures Hidden(ar, m, tokens, l)[..n] == Hidden(ar, m, tokens[..n], l)
    decreases l
  {
    hide LayerRows;
    if l > 0 {
      LayersFit(m, l - 1);
      HiddenPrefix(ar, m, tokens, n, l - 1);
      LayerPrefix(ar, m, m.layers[l - 1], Hidden(ar, m, tokens, l - 1), n);
    }
  }

  /** Tokens after position `t` do not reach the hidden state at `t`, bit for bit, whatever the arithmetic. */
  lemma Causality<F, D>(ar: Arith<F, D>, m: Model<F>, tokens: seq<int>, others: seq<int>, t: nat, l: nat)
    requires ModelShaped(m) && InVocab(tokens, m.vocab) && InVocab(others, m.vocab) && l <= |m.layers|
    requires t < |tokens| && t < |others| && tokens[..t + 1] == others[..t + 1]
    ensures Hidden(ar, m, tokens, l)[t] == Hidden(ar, m, others, l)[t]
  {
    hide Hidden;
    HiddenPrefix(ar, m, tokens, t + 1, l);
    HiddenPrefix(ar, m, others, t + 1, l);
    assert Hidden(ar, m, tokens, l)[..t + 1][t] == Hidden(ar, m, others, l)[..t + 1][t];
  }

  // ---------------------------------------------------------------- the cache

  /** The cache of layer `l` holds the keys and values the layer-by-layer pass computes. */
  ghost predicate CacheHolds<F, D>(ar: Arith<F, D>, m: Model<F>, tokens: seq<int>, c: LayerCache<F>, l: nat)
    requires ModelShaped(m) && InVocab(tokens, m.vocab) && l < |m.layers|
  {
    LayersFit(m, l);
    var xs := Hidden(ar, m, tokens, l);
    c.ks == KeyRows(ar, m, m.layers[l], xs) && c.vs == ValueRows(ar, m, m.layers[l], xs)
  }

  lemma RowsSnoc<F, D>(ar: Arith<F, D>, m: Model<F>, l: Layer<F>, xs: seq<seq<F>>)
    requires Fits(m, l) && Rows(xs, m.dim) && xs != []
    ensures Rows(xs[..|xs| - 1], m.dim)
    ensures var n := |xs| - 1;
            && KeyRows(ar, m, l, xs) == KeyRows(ar, m, l, xs[..n]) + [KeyOf(ar, m, l, xs[n], n)]
            && ValueRows(ar, m, l, xs) == ValueRows(ar, m, l, xs[..n]) + [ValueOf(ar, m, l, xs[n])]
    ensures var n := |xs| - 1;
            LayerRows(ar, m, l, xs)[n] == Block(ar, m, l, xs[n], n, KeyRows(ar, m, l, xs), ValueRows(ar, m, l, xs))
  {
    hide KeyOf, ValueOf, Block;
    var n := |xs| - 1;
    LayerPrefix(ar, m, l, xs, n);
    var ks, vs := KeyRows(ar, m, l, xs), ValueRows(ar, m, l, xs);
    assert ks == ks[..n] + [ks[n]] && vs == vs[..n] + [vs[n]];
    assert ks[..n + 1] == ks && vs[..n + 1] == vs;
  }

  lemma HiddenStep<F, D>(ar: Arith<F, D>, m: Model<F>, tokens: seq<int>, l: nat)
    requires ModelShaped(m) && InVocab(tokens, m.vocab) && l < |m.layers| && Fits(m, m.layers[l])
    ensures Hidden(ar, m, tokens, l + 1) == LayerRows(ar, m, m.layers[l], Hidden(ar, m, tokens, l))
  {
    hide LayerRows;
  }

  /** One layer of the cached pass. */
  lemma CachedLayerStep<F, D>(ar: Arith<F, D>, m: Model<F>, tokens: seq<int>, c: LayerCache<F>, l: nat, x: seq<F>)
    requires ModelShaped(m) && InVocab(tokens, m.vocab) && tokens != [] && l < |m.layers| && Fits(m, m.layers[l])
    requires CacheHolds(ar, m, tokens[..|tokens| - 1], c, l) && x == Hidden(ar, m, tokens, l)[|tokens| - 1]
    ensures |c.ks| == |c.vs| == |tokens| - 1 && Rows(c.ks, KvDim(m)) && Rows(c.vs, KvDim(m))
    ensures var n := |tokens| - 1; var layer := m.layers[l];
            var c' := LayerCache(c.ks + [KeyOf(ar, m, layer, x, n)], c.vs + [ValueOf(ar, m, layer, x)]);
            && CacheHolds(ar, m, tokens, c', l)
            && Block(ar, m, layer, x, n, c'.ks, c'.vs) == Hidden(ar, m, tokens, l + 1)[n]
  {
    hide KeyRows, ValueRows, LayerRows, KeyOf, ValueOf, Block, Hidden;
    HiddenPrefix(ar, m, tokens, |tokens| - 1, l);
    HiddenStep(ar, m, tokens, l);
    RowsSnoc(ar, m, m.layers[l], Hidden(ar, m, tokens, l));
  }

  /** Feeding one more token through a cache that holds the earlier positions gives the layer-by-layer row and
      a cache that holds it too. */
  lemma {:induction false} CachedLayersAgree<F, D>(ar: Arith<F, D>, m: Model<F>, tokens: seq<int>,
                                                   cache: seq<LayerCache<F>>, l: nat)
    requires ModelShaped(m) && InVocab(tokens, m.vocab) && tokens != [] && l <= |m.layers|
    requires CacheOk(m, cache, |tokens| - 1)
    requires forall i: nat | i < |m.layers| :: CacheHolds(ar, m, tokens[..|tokens| - 1], cache[i], i)
    ensures var n := |tokens| - 1;
            var p := CachedLayers(ar, m, cache, n, tokens[n], l);
            && p.x == Hidden(ar, m, tokens, l)[n]
            && forall i: nat | i < l :: CacheHolds(ar, m, tokens, p.cache[i], i)
    decreases l
  {
    hide KeyOf, ValueOf, Block, CacheHolds;
    if l > 0 {
      LayersFit(m, l - 1);
      CachedLayersAgree(ar, m, tokens, cache, l - 1);
      CachedLayerStep(ar, m, tokens, cache[l - 1], l - 1, Hidden(ar, m, tokens, l - 1)[|tokens| - 1]);
    }
  }

  lemma {:induction false} CachedRunHolds<F, D>(ar: Arith<F, D>, m: Model<F>, tokens: seq<int>, i: nat)
    requires ModelShaped(m) && InVocab(tokens, m.vocab) && i < |m.layers|
    ensures CacheHolds(ar, m, tokens, CachedRun(ar, m, tokens)[i], i)
    decreases |tokens|
  {
    hide CachedLayers, CacheHolds;
    LayersFit(m, i);
    if tokens == [] {
      EmptyHolds(ar, m, i);
    } else {
      var n := |tokens| - 1;
      forall j: nat | j < |m.layers|
        ensures CacheHolds(ar, m, tokens[..n], CachedRun(ar, m, tokens[..n])[j], j)
      {
        CachedRunHolds(ar, m, tokens[..n], j);
      }
      CachedLayersAgree(ar, m, tokens, CachedRun(ar, m, tokens[..n]), |m.layers|);
    }
  }

  lemma EmptyHolds<F, D>(ar: Arith<F, D>, m: Model<F>, i: nat)
    requires ModelShaped(m) && i < |m.layers|
    ensures CacheHolds(ar, m, [], NoCache(m)[i], i)
  {
  }

  /** Decoding with a cache gives the logits of the whole pass, bit for bit, whatever the arithmetic. */
  lemma CachedEqualsWhole<F, D>(ar: Arith<F, D>, m: Model<F>, tokens: seq<int>)
    requires ModelShaped(m) && InVocab(tokens, m.vocab) && tokens != []
    ensures CachedLogits(ar, m, tokens) == Logits(ar, m, tokens)
  {
    hide CachedLayers, CacheHolds, Hidden, MatVec, Norm;
    var n := |tokens| - 1;
    forall j: nat | j < |m.layers|
      ensures CacheHolds(ar, m, tokens[..n], CachedRun(ar, m, tokens[..n])[j], j)
    {
      CachedRunHolds(ar, m, tokens[..n], j);
    }
    CachedLayersAgree(ar, m, tokens, CachedRun(ar, m, tokens[..n]), |m.layers|);
  }
}
