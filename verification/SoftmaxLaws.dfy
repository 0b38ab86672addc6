/** Laws of the attention weights over the reals, and which positions a layer averages over. */
module SoftmaxLaws {
  import opened Numbers
  import opened Reference
  import opened ForwardPass
  import opened AttentionLaws
  import opened PassLaws

  ghost predicate Positive(exp: real -> real) {
    forall x :: exp(x) > 0.0
  }

  /** The weights of the first `n` positions together. */
  function Weights(lib: Library, logits: seq<real>, n: nat): real
    requires n <= |logits|
  {
    if n == 0 then 0.0 else Weights(lib, logits, n - 1) + HeadWeight(Reals(lib), logits, n - 1)
  }

  lemma {:induction false} PartitionPositive(lib: Library, logits: seq<real>, mx: real, n: nat)
    requires Positive(lib.exp) && n <= |logits|
    ensures var z := Partition(Reals(lib), logits, mx, n); if n == 0 then z == 0.0 else z > 0.0
  {
    if n > 0 { PartitionPositive(lib, logits, mx, n - 1); }
  }

  lemma WeightIs(lib: Library, logits: seq<real>, j: nat)
    requires Positive(lib.exp) && j < |logits|
    ensures var ar := Reals(lib); var mx := Largest(ar, logits, |logits|); var z := Partition(ar, logits, mx, |logits|);
            z > 0.0 && HeadWeight(ar, logits, j) == lib.exp(logits[j] - mx) / z
  {
    hide Largest, Partition;
    PartitionPositive(lib, logits, Largest(Reals(lib), logits, |logits|), |logits|);
  }

  lemma {:induction false} WeightsArePartition(lib: Library, logits: seq<real>, mx: real, z: real, n: nat)
    requires Positive(lib.exp) && n <= |logits|
    requires mx == Largest(Reals(lib), logits, |logits|) && z == Partition(Reals(lib), logits, mx, |logits|) && z > 0.0
    ensures Weights(lib, logits, n) == Partition(Reals(lib), logits, mx, n) / z
  {
    hide Largest, HeadWeight;
    if n > 0 {
      WeightsArePartition(lib, logits, mx, z, n - 1);
      WeightIs(lib, logits, n - 1);
    }
  }

  /** The weights of a head add up to one. */
  lemma WeightsSum(lib: Library, logits: seq<real>)
    requires Positive(lib.exp) && logits != []
    ensures Weights(lib, logits, |logits|) == 1.0
  {
    hide Largest, Partition, HeadWeight, Weights;
    WeightIs(lib, logits, 0);
    var mx := Largest(Reals(lib), logits, |logits|);
    WeightsArePartition(lib, logits, mx, Partition(Reals(lib), logits, mx, |logits|), |logits|);
  }

  lemma QuotientTimes(a: real, b: real, c: real, z: real)
    requires z > 0.0 && a == b * c
    ensures a / z == b / z * c
  {
  }

  /** Two weights of a head stand to each other as the exponential of the difference of their scores. */
  lemma WeightRatio(lib: Library, logits: seq<real>, i: nat, j: nat)
    requires Positive(lib.exp) && i < |logits| && j < |logits|
    requires forall x, y :: lib.exp(x + y) == lib.exp(x) * lib.exp(y)
    ensures HeadWeight(Reals(lib), logits, i) == HeadWeight(Reals(lib), logits, j) * lib.exp(logits[i] - logits[j])
  {
    hide Largest, Partition, HeadWeight;
    WeightIs(lib, logits, i);
    WeightIs(lib, logits, j);
    var mx := Largest(Reals(lib), logits, |logits|);
    var a, b := logits[j] - mx, logits[i] - logits[j];
    assert a + b == logits[i] - mx;
    assert lib.exp(a + b) == lib.exp(a) * lib.exp(b);
    QuotientTimes(lib.exp(a + b), lib.exp(a), lib.exp(b), Partition(Reals(lib), logits, mx, |logits|));
  }

  // ---------------------------------------------------------------- equal scores

  lemma {:induction false} EqualPartition(lib: Library, logits: seq<real>, a: real, mx: real, n: nat)
    requires n <= |logits| && forall j | 0 <= j < |logits| :: logits[j] == a
    ensures Partition(Reals(lib), logits, mx, n) == Times(n as real, lib.exp(a - mx))
  {
    if n > 0 {
      EqualPartition(lib, logits, a, mx, n - 1);
      assert n as real == (n - 1) as real + 1.0;
    }
  }

  lemma Share(e: real, n: real, z: real)
    requires e > 0.0 && n > 0.0 && z == Times(n, e)
    ensures z > 0.0 && e / z * n == 1.0
  {
    assert z > 0.0;
    assert e / z * n == n * e / z;
  }

  /** Equal scores give equal weights. */
  lemma EqualWeights(lib: Library, logits: seq<real>, a: real, j: nat)
    requires Positive(lib.exp) && j < |logits| && forall i | 0 <= i < |logits| :: logits[i] == a
    ensures HeadWeight(Reals(lib), logits, j) * |logits| as real == 1.0
  {
    hide Largest, Partition, HeadWeight, Times;
    WeightIs(lib, logits, j);
    var mx := Largest(Reals(lib), logits, |logits|);
    EqualPartition(lib, logits, a, mx, |logits|);
    Share(lib.exp(a - mx), |logits| as real, Partition(Reals(lib), logits, mx, |logits|));
  }

  /** Coordinate `at` of the first `n` rows, added up. */
  function SumAt(rows: seq<seq<real>>, at: nat, n: nat): real
    requires n <= |rows| && forall j: nat | j < |rows| :: at < |rows[j]|
  {
    if n == 0 then 0.0 else SumAt(rows, at, n - 1) + rows[n - 1][at]
  }

  lemma AddShare(mixed: real, w: real, v: real, n: real, sum: real)
    requires mixed * n == sum && w * n == 1.0
    ensures (mixed + w * v) * n == sum + v
  {
    assert (mixed + w * v) * n == mixed * n + (w * n) * v;
  }

  lemma {:induction false} EqualMix(lib: Library, logits: seq<real>, a: real, vs: seq<seq<real>>, at: nat, n: nat)
    requires Positive(lib.exp) && n <= |logits| == |vs| && forall j: nat | j < |vs| :: at < |vs[j]|
    requires forall i | 0 <= i < |logits| :: logits[i] == a
    ensures Mixed(Reals(lib), logits, vs, at, n) * |logits| as real == SumAt(vs, at, n)
  {
    hide HeadWeight;
    if n > 0 {
      EqualMix(lib, logits, a, vs, at, n - 1);
      EqualWeights(lib, logits, a, n - 1);
      AddShare(Mixed(Reals(lib), logits, vs, at, n - 1), HeadWeight(Reals(lib), logits, n - 1), vs[n - 1][at],
               |logits| as real, SumAt(vs, at, n - 1));
    }
  }

  lemma {:induction false} ZeroMix(lib: Library, logits: seq<real>, vs: seq<seq<real>>, at: nat, n: nat)
    requires n <= |logits| == |vs| && forall j: nat | j < |vs| :: at < |vs[j]| && vs[j][at] == 0.0
    ensures Mixed(Reals(lib), logits, vs, at, n) == 0.0
  {
    hide HeadWeight;
    if n > 0 { ZeroMix(lib, logits, vs, at, n - 1); }
  }

  // ---------------------------------------------------------------- what a layer attends to

  lemma RopedZeros(lib: Library, v: seq<real>, heads: nat, hd: nat, pos: nat)
    requires |v| == heads * hd && Zeros(v)
    ensures Zeros(Roped(Reals(lib), v, heads, hd, pos))
  {
    var r := Roped(Reals(lib), v, heads, hd, pos);
    forall n: nat | n < |r|
      ensures r[n] == 0.0
    {
      TurnedZero(lib, v, heads, hd, pos, n);
    }
  }

  lemma TurnedZero(lib: Library, v: seq<real>, heads: nat, hd: nat, pos: nat, n: nat)
    requires n < |v| == heads * hd && Zeros(v)
    ensures Turned(Reals(lib), v, heads, hd, pos, n) == 0.0
  {
    var h, k := SplitIndex(n, heads, hd);
    if k / 2 < hd / 2 { PairRoom(n, heads, hd, h, k); }
  }

  lemma ZeroLogits(lib: Library, q: seq<real>, qAt: nat, ks: seq<seq<real>>, kAt: nat, hd: nat)
    requires qAt + hd <= |q| && (forall i: nat | i < |ks| :: kAt + hd <= |ks[i]|) && Zeros(q)
    ensures Zeros(HeadLogits(Reals(lib), q, qAt, ks, kAt, hd))
  {
    hide HeadLogits, Inner, Reals;
    var logits := HeadLogits(Reals(lib), q, qAt, ks, kAt, hd);
    forall j: nat | j < |logits|
      ensures logits[j] == 0.0
    {
      LogitIsInner(lib, q, qAt, ks, kAt, hd, j);
      InnerZero(q[qAt..qAt + hd], ks[j][kAt..kAt + hd]);
    }
  }

  /** One coordinate of attention by a zero query: the mean of that coordinate of the values of its group. */
  lemma MeanAt(lib: Library, heads: nat, kvHeads: nat, hd: nat, q: seq<real>, ks: seq<seq<real>>, vs: seq<seq<real>>,
               g: nat, i: nat, c: nat)
    requires Positive(lib.exp) && Zeros(q)
    requires Heads(heads, kvHeads, hd) && |q| == heads * hd && |ks| == |vs|
    requires Rows(ks, kvHeads * hd) && Rows(vs, kvHeads * hd)
    requires g < kvHeads && i < heads / kvHeads && c < hd
    ensures var h := g * (heads / kvHeads) + i; 0 <= h < heads && 0 <= h * hd && h * hd + c < heads * hd
    ensures 0 <= g * hd && g * hd + c < kvHeads * hd
    ensures Attention(Reals(lib), heads, kvHeads, hd, q, ks, vs)[(g * (heads / kvHeads) + i) * hd + c] *
            |vs| as real == SumAt(vs, g * hd + c, |vs|)
  {
    hide Attention, KvHead, HeadLogits, Mixed, Reals, SumAt;
    KvHeadOf(heads, kvHeads, g, i);
    var h := g * (heads / kvHeads) + i;
    RowFits(heads, hd, h, c);
    RowFits(kvHeads, hd, g, c);
    MulLe(0, h, hd);
    MulLe(0, g, hd);
    AttentionAt(Reals(lib), heads, kvHeads, hd, q, ks, vs, h, h * hd + c);
    RowEnd(heads, hd, h);
    RowEnd(kvHeads, hd, g);
    ZeroLogits(lib, q, h * hd, ks, g * hd, hd);
    EqualMix(lib, HeadLogits(Reals(lib), q, h * hd, ks, g * hd, hd), 0.0, vs, g * hd + c, |vs|);
  }

  /** The values of the first positions. */
  function ValuesOf(lib: Library, m: Model<real>, l: Layer<real>, xs: seq<seq<real>>, n: nat): (vs: seq<seq<real>>)
    requires Fits(m, l) && Rows(xs, m.dim) && n <= |xs|
    ensures |vs| == n && Rows(vs, KvDim(m))
  {
    seq(n, j requires 0 <= j < n => MatVec(Reals(lib), l.v, Norm(Reals(lib), xs[j], l.attnNorm)))
  }

  /** Coordinate `c` of the `i`-th head of group `g` is the mean of coordinate `c` of head `g` of the values. */
  ghost predicate IsMean(att: seq<real>, vs: seq<seq<real>>, group: nat, hd: nat, g: nat, i: nat, c: nat) {
    var at, from := (g * group + i) * hd + c, g * hd + c;
    && 0 <= at < |att| && 0 <= from
    && (forall j: nat | j < |vs| :: from < |vs[j]|)
    && att[at] * |vs| as real == SumAt(vs, from, |vs|)
  }

  /** Every head of every group holds the mean of its group's head of the values. */
  ghost predicate AllMeans(att: seq<real>, vs: seq<seq<real>>, kvHeads: nat, group: nat, hd: nat) {
    forall g: nat, i: nat, c: nat | g < kvHeads && i < group && c < hd :: IsMean(att, vs, group, hd, g, i, c)
  }

  /** The rest of a layer once a position has attended. */
  function Rest(lib: Library, m: Model<real>, l: Layer<real>, x: seq<real>, att: seq<real>): seq<real>
    requires Fits(m, l) && |x| == |att| == m.dim
  {
    AfterFfn(Reals(lib), m, l, Plus(Reals(lib), x, MatVec(Reals(lib), l.attnOut, att)))
  }

  /** `att` is what position `t` attends to: in every head of every group the mean of the values so far; the layer goes
      on from there. */
  ghost predicate Averages(lib: Library, m: Model<real>, l: Layer<real>, xs: seq<seq<real>>, t: nat, att: seq<real>)
    requires Fits(m, l) && Rows(xs, m.dim) && t < |xs|
  {
    hide LayerShaped, KvDim, AllMeans, ValuesOf, Rest, LayerRows, Reals;
    && |att| == m.dim
    && LayerRows(Reals(lib), m, l, xs)[t] == Rest(lib, m, l, xs[t], att)
    && AllMeans(att, ValuesOf(lib, m, l, xs, t + 1), m.kvHeads, m.heads / m.kvHeads, HeadDim(m))
  }

  /** Without a query matrix position `t` averages: every head of group `g` receives the mean, over positions 0 to `t`,
      of head `g` of the values, and `attnOut` and the feed-forward block do the rest. */
  lemma UniformAttention(lib: Library, m: Model<real>, l: Layer<real>, xs: seq<seq<real>>, t: nat)
    returns (att: seq<real>)
    requires Fits(m, l) && Rows(xs, m.dim) && t < |xs| && Zeros(l.q.w) && Positive(lib.exp)
    ensures Averages(lib, m, l, xs, t, att)
  {
    hide MatVec, Norm, Attention, Plus, AfterFfn, Reals, Zeros, Roped, Positive, IsMean, KvDim;
    var ar, hd := Reals(lib), HeadDim(m);
    var q := Query(ar, m, l, xs[t], t);
    var ks, vs := KeyRows(ar, m, l, xs)[..t + 1], ValueRows(ar, m, l, xs)[..t + 1];
    assert vs == ValuesOf(lib, m, l, xs, t + 1);
    ZeroQuery(lib, m, l, xs[t], t);
    KvDimIs(m);
    att := Attention(ar, m.heads, m.kvHeads, hd, q, ks, vs);
    forall g: nat, i: nat, c: nat | g < m.kvHeads && i < m.heads / m.kvHeads && c < hd
      ensures IsMean(att, vs, m.heads / m.kvHeads, hd, g, i, c)
    {
      MeanIs(lib, m.heads, m.kvHeads, hd, q, ks, vs, g, i, c);
    }
  }

  lemma KvDimIs(m: Model<real>)
    requires m.heads > 0
    ensures KvDim(m) == m.kvHeads * HeadDim(m)
  {
  }

  lemma ZeroQuery(lib: Library, m: Model<real>, l: Layer<real>, x: seq<real>, t: nat)
    requires Fits(m, l) && |x| == m.dim && Zeros(l.q.w)
    ensures Zeros(Query(Reals(lib), m, l, x, t))
  {
    hide MatVec, Norm, Roped, Reals, Zeros;
    var h := Norm(Reals(lib), x, l.attnNorm);
    ZeroProduct(lib, l.q, h);
    RopedZeros(lib, MatVec(Reals(lib), l.q, h), m.heads, HeadDim(m), t);
  }

  lemma MeanIs(lib: Library, heads: nat, kvHeads: nat, hd: nat, q: seq<real>, ks: seq<seq<real>>, vs: seq<seq<real>>,
               g: nat, i: nat, c: nat)
    requires Positive(lib.exp) && Zeros(q)
    requires Heads(heads, kvHeads, hd) && |q| == heads * hd && |ks| == |vs|
    requires Rows(ks, kvHeads * hd) && Rows(vs, kvHeads * hd)
    requires g < kvHeads && i < heads / kvHeads && c < hd
    ensures IsMean(Attention(Reals(lib), heads, kvHeads, hd, q, ks, vs), vs, heads / kvHeads, hd, g, i, c)
  {
    hide Attention, Zeros, Reals, Positive, SumAt;
    MeanAt(lib, heads, kvHeads, hd, q, ks, vs, g, i, c);
  }

  /** Without values, or without the norm in front of them, attention adds nothing. */
  lemma NothingToAttend(lib: Library, m: Model<real>, l: Layer<real>, xs: seq<seq<real>>, t: nat)
    requires Fits(m, l) && Rows(xs, m.dim) && t < |xs| && (Zeros(l.v.w) || Zeros(l.attnNorm.w))
    ensures LayerRows(Reals(lib), m, l, xs)[t] == AfterFfn(Reals(lib), m, l, xs[t])
  {
    hide MatVec, Norm, Attention, Plus, AfterFfn, Reals, Zeros, Query, KeyOf, KvDim;
    var ar, hd := Reals(lib), HeadDim(m);
    var q := Query(ar, m, l, xs[t], t);
    var ks, vs := KeyRows(ar, m, l, xs)[..t + 1], ValueRows(ar, m, l, xs)[..t + 1];
    forall j: nat | j < |vs|
      ensures Zeros(vs[j])
    {
      ZeroValue(lib, m, l, xs[j]);
    }
    KvDimIs(m);
    ZeroAttention(lib, m.heads, m.kvHeads, hd, q, ks, vs);
    var att := Attention(ar, m.heads, m.kvHeads, hd, q, ks, vs);
    ZeroProduct(lib, l.attnOut, att);
    PlusZeros(lib, xs[t], MatVec(ar, l.attnOut, att));
  }

  lemma ZeroValue(lib: Library, m: Model<real>, l: Layer<real>, x: seq<real>)
    requires Fits(m, l) && |x| == m.dim && (Zeros(l.v.w) || Zeros(l.attnNorm.w))
    ensures Zeros(ValueOf(Reals(lib), m, l, x))
  {
    hide MatVec;
    var h := Norm(Reals(lib), x, l.attnNorm);
    if Zeros(l.attnNorm.w) { assert Zeros(h); }
    ZeroProduct(lib, l.v, h);
  }

  lemma ZeroAttention(lib: Library, heads: nat, kvHeads: nat, hd: nat, q: seq<real>, ks: seq<seq<real>>,
                      vs: seq<seq<real>>)
    requires Heads(heads, kvHeads, hd) && |q| == heads * hd && |ks| == |vs|
    requires Rows(ks, kvHeads * hd) && Rows(vs, kvHeads * hd) && forall j: nat | j < |vs| :: Zeros(vs[j])
    ensures Zeros(Attention(Reals(lib), heads, kvHeads, hd, q, ks, vs))
  {
    hide Mixed, HeadLogits, KvHead, Reals;
    var att := Attention(Reals(lib), heads, kvHeads, hd, q, ks, vs);
    forall n: nat | n < |att|
      ensures att[n] == 0.0
    {
      var h, c := SplitIndex(n, heads, hd);
      var g := KvHead(heads, kvHeads, h);
      RowEnd(heads, hd, h);
      RowEnd(kvHeads, hd, g);
      MulLe(0, g, hd);
      ZeroMix(lib, HeadLogits(Reals(lib), q, h * hd, ks, g * hd, hd), vs, g * hd + c, |vs|);
    }
  }
}
