/** Laws of the forward pass over the reals: what each weight is for. */
module PassLaws {
  import opened Numbers
  import opened Reference
  import opened ForwardPass
  import opened AttentionLaws

  // ---------------------------------------------------------------- inner products

  /** The inner product of two vectors, taken from the front. */
  function Inner(a: seq<real>, b: seq<real>): real
    requires |a| == |b|
  {
    if a == [] then 0.0 else a[0] * b[0] + Inner(a[1..], b[1..])
  }

  lemma {:induction false} InnerSnoc(a: seq<real>, b: seq<real>, x: real, y: real)
    requires |a| == |b|
    ensures Inner(a + [x], b + [y]) == Inner(a, b) + x * y
  {
    if a == [] {
      assert a + [x] == [x] && b + [y] == [y];
      assert [x][1..] == [] && [y][1..] == [];
    } else {
      InnerSnoc(a[1..], b[1..], x, y);
      assert (a + [x])[1..] == a[1..] + [x] && (b + [y])[1..] == b[1..] + [y];
    }
  }

  lemma {:induction false} DotIsInner(lib: Library, w: seq<real>, at: nat, x: seq<real>, n: nat)
    requires at + n <= |w| && n <= |x|
    ensures Dot(Reals(lib), w, at, x, n) == Inner(w[at..at + n], x[..n])
  {
    if n > 0 {
      DotIsInner(lib, w, at, x, n - 1);
      assert w[at..at + n] == w[at..at + (n - 1)] + [w[at + n - 1]] && x[..n] == x[..n - 1] + [x[n - 1]];
      InnerSnoc(w[at..at + (n - 1)], x[..n - 1], w[at + n - 1], x[n - 1]);
    }
  }

  lemma {:induction false} ScoreIsInner(lib: Library, q: seq<real>, qAt: nat, k: seq<real>, kAt: nat, n: nat)
    requires qAt + n <= |q| && kAt + n <= |k|
    ensures Score(Reals(lib), q, qAt, k, kAt, n) == Inner(q[qAt..qAt + n], k[kAt..kAt + n])
  {
    if n > 0 {
      ScoreIsInner(lib, q, qAt, k, kAt, n - 1);
      assert q[qAt..qAt + n] == q[qAt..qAt + (n - 1)] + [q[qAt + n - 1]];
      assert k[kAt..kAt + n] == k[kAt..kAt + (n - 1)] + [k[kAt + n - 1]];
      InnerSnoc(q[qAt..qAt + (n - 1)], k[kAt..kAt + (n - 1)], q[qAt + n - 1], k[kAt + n - 1]);
    }
  }

  lemma {:induction false} SquaresAreInner(lib: Library, x: seq<real>, n: nat)
    requires n <= |x|
    ensures SumSquares(Reals(lib), x, n) == Inner(x[..n], x[..n])
  {
    if n > 0 {
      SquaresAreInner(lib, x, n - 1);
      assert x[..n] == x[..n - 1] + [x[n - 1]];
      InnerSnoc(x[..n - 1], x[..n - 1], x[n - 1], x[n - 1]);
    }
  }

  /** Entry `r` of a matrix product is the inner product of row `r` with the vector. */
  lemma RowIsInner(lib: Library, m: Dense<real>, x: seq<real>, r: nat)
    requires |m.w| == m.rows * m.cols && |x| == m.cols && r < m.rows
    ensures 0 <= r * m.cols && r * m.cols + m.cols <= |m.w|
    ensures MatVec(Reals(lib), m, x)[r] == Inner(m.w[r * m.cols..r * m.cols + m.cols], x)
  {
    hide Dot, Reals;
    RowEnd(m.rows, m.cols, r);
    MulLe(0, r, m.cols);
    DotIsInner(lib, m.w, r * m.cols, x, m.cols);
    assert x[..m.cols] == x;
  }

  /** The scores of a head: scaled inner products of the query's slice with the slice of every key. */
  lemma LogitIsInner(lib: Library, q: seq<real>, qAt: nat, ks: seq<seq<real>>, kAt: nat, hd: nat, j: nat)
    requires qAt + hd <= |q| && (forall i: nat | i < |ks| :: kAt + hd <= |ks[i]|) && j < |ks|
    ensures HeadLogits(Reals(lib), q, qAt, ks, kAt, hd)[j] ==
            Inner(q[qAt..qAt + hd], ks[j][kAt..kAt + hd]) * lib.scale(hd)
  {
    hide Score;
    ScoreIsInner(lib, q, qAt, ks[j], kAt, hd);
  }

  /** `c` is `f` times `b`. */
  predicate Multiple(c: seq<real>, b: seq<real>, f: real) {
    |c| == |b| && forall i | 0 <= i < |b| :: c[i] == Times(f, b[i])
  }

  lemma {:induction false} InnerScaled(a: seq<real>, b: seq<real>, c: seq<real>, f: real)
    requires |a| == |b| && Multiple(c, b, f)
    ensures Inner(a, c) == Times(f, Inner(a, b))
  {
    if a != [] {
      InnerScaled(a[1..], b[1..], c[1..], f);
      assert a[0] * c[0] == f * (a[0] * b[0]);
    }
  }

  lemma {:induction false} InnerSwap(a: seq<real>, b: seq<real>)
    requires |a| == |b|
    ensures Inner(a, b) == Inner(b, a)
  {
    if a != [] { InnerSwap(a[1..], b[1..]); }
  }

  predicate Zeros(x: seq<real>) {
    forall i | 0 <= i < |x| :: x[i] == 0.0
  }

  lemma {:induction false} InnerZero(a: seq<real>, b: seq<real>)
    requires |a| == |b| && (Zeros(a) || Zeros(b))
    ensures Inner(a, b) == 0.0
  {
    if a != [] { InnerZero(a[1..], b[1..]); }
  }

  /** A product with a zero matrix or a zero vector is zero. */
  lemma ZeroProduct(lib: Library, m: Dense<real>, x: seq<real>)
    requires |m.w| == m.rows * m.cols && |x| == m.cols && (Zeros(m.w) || Zeros(x))
    ensures Zeros(MatVec(Reals(lib), m, x))
  {
    hide MatVec, Inner, Reals;
    var y := MatVec(Reals(lib), m, x);
    forall r | 0 <= r < |y|
      ensures y[r] == 0.0
    {
      RowIsInner(lib, m, x, r);
      InnerZero(m.w[r * m.cols..r * m.cols + m.cols], x);
    }
  }

  lemma PlusZeros(lib: Library, x: seq<real>, o: seq<real>)
    requires |x| == |o| && Zeros(o)
    ensures Plus(Reals(lib), x, o) == x
  {
  }

  lemma NormAt(lib: Library, x: seq<real>, w: Dense<real>, i: nat)
    requires |w.w| == |x| && i < |x|
    ensures Norm(Reals(lib), x, w)[i] == x[i] * lib.invRms(Inner(x, x), |x|) * w.w[i]
  {
    hide Inner, SumSquares;
    SquaresAreInner(lib, x, |x|);
    assert x[..|x|] == x;
  }

  lemma SameLength(c: seq<real>, b: seq<real>, f: real)
    requires Multiple(c, b, f)
    ensures |c| == |b|
  {
  }

  /** The squares of a multiple. */
  lemma InnerOfScaled(x: seq<real>, y: seq<real>, f: real)
    requires Multiple(y, x, f)
    ensures Inner(y, y) == Times(f, Times(f, Inner(x, x)))
  {
    hide Inner, Times, Multiple;
    SameLength(y, x, f);
    InnerScaled(y, x, y, f);
    InnerSwap(y, x);
    InnerScaled(x, x, y, f);
  }

  /** Root mean square: with unit weights the mean square of a normalized vector is 1 up to the epsilon. */
  lemma NormEnergy(lib: Library, x: seq<real>, w: Dense<real>, eps: real)
    requires |w.w| == |x| > 0 && forall i | 0 <= i < |x| :: w.w[i] == 1.0
    requires var inv := lib.invRms(Inner(x, x), |x|); inv * inv * (Inner(x, x) / |x| as real + eps) == 1.0
    ensures var y, inv := Norm(Reals(lib), x, w), lib.invRms(Inner(x, x), |x|);
            Inner(y, y) / |x| as real + eps * (inv * inv) == 1.0
  {
    hide Inner, Norm, Reals, Times;
    var y, inv := Norm(Reals(lib), x, w), lib.invRms(Inner(x, x), |x|);
    NormScales(lib, x, w, y, inv);
    EnergyOf(Inner(x, x), Inner(y, y), inv, |x| as real, eps);
  }

  lemma NormScales(lib: Library, x: seq<real>, w: Dense<real>, y: seq<real>, inv: real)
    requires |w.w| == |x| && (forall i | 0 <= i < |x| :: w.w[i] == 1.0)
    requires y == Norm(Reals(lib), x, w) && inv == lib.invRms(Inner(x, x), |x|)
    ensures Inner(y, y) == Times(inv, Times(inv, Inner(x, x)))
  {
    hide Inner, Norm, Reals;
    forall i | 0 <= i < |x|
      ensures y[i] == Times(inv, x[i])
    {
      NormAt(lib, x, w, i);
    }
    InnerOfScaled(x, y, inv);
  }

  lemma EnergyOf(xx: real, yy: real, inv: real, n: real, eps: real)
    requires yy == Times(inv, Times(inv, xx)) && n > 0.0 && inv * inv * (xx / n + eps) == 1.0
    ensures yy / n + eps * (inv * inv) == 1.0
  {
    assert yy / n == inv * inv * (xx / n);
  }

  // ---------------------------------------------------------------- the residual stream

  /** Without its output matrices a layer leaves every position as it was. */
  lemma SilentLayer(lib: Library, m: Model<real>, l: Layer<real>, xs: seq<seq<real>>)
    requires Fits(m, l) && Rows(xs, m.dim) && Zeros(l.attnOut.w) && Zeros(l.down.w)
    ensures LayerRows(Reals(lib), m, l, xs) == xs
  {
    hide MatVec, Attention, Norm, Gated, Query, KeyOf, ValueOf, Plus, Reals;
    var ar := Reals(lib);
    forall t: nat | t < |xs|
      ensures LayerRows(ar, m, l, xs)[t] == xs[t]
    {
      var ks, vs := KeyRows(ar, m, l, xs)[..t + 1], ValueRows(ar, m, l, xs)[..t + 1];
      SilentAttention(lib, m, l, xs[t], Query(ar, m, l, xs[t], t), ks, vs);
      SilentFfn(lib, m, l, xs[t]);
    }
  }

  lemma SilentAttention(lib: Library, m: Model<real>, l: Layer<real>, x: seq<real>, q: seq<real>, ks: seq<seq<real>>,
                        vs: seq<seq<real>>)
    requires Fits(m, l) && |x| == |q| == m.dim && |ks| == |vs| && Rows(ks, KvDim(m)) && Rows(vs, KvDim(m))
    requires Zeros(l.attnOut.w)
    ensures AfterAttention(Reals(lib), m, l, x, q, ks, vs) == x
  {
    hide MatVec, Attention, Plus, Reals;
    var ar := Reals(lib);
    var att := Attention(ar, m.heads, m.kvHeads, HeadDim(m), q, ks, vs);
    ZeroProduct(lib, l.attnOut, att);
    PlusZeros(lib, x, MatVec(ar, l.attnOut, att));
  }

  lemma SilentFfn(lib: Library, m: Model<real>, l: Layer<real>, x: seq<real>)
    requires Fits(m, l) && |x| == m.dim && Zeros(l.down.w)
    ensures AfterFfn(Reals(lib), m, l, x) == x
  {
    hide MatVec, Norm, Gated, Plus, Reals;
    var ar := Reals(lib);
    var h := Norm(ar, x, l.ffnNorm);
    var g := Gated(ar, MatVec(ar, l.gate, h), MatVec(ar, l.up, h));
    ZeroProduct(lib, l.down, g);
    PlusZeros(lib, x, MatVec(ar, l.down, g));
  }

  /** Layer `l` of the model is the one that acts between the states after `l` and after `l + 1` layers. */
  lemma SilentStep(lib: Library, m: Model<real>, tokens: seq<int>, l: nat)
    requires ModelShaped(m) && InVocab(tokens, m.vocab) && l < |m.layers|
    requires Zeros(m.layers[l].attnOut.w) && Zeros(m.layers[l].down.w)
    ensures Hidden(Reals(lib), m, tokens, l + 1) == Hidden(Reals(lib), m, tokens, l)
  {
    hide LayerRows, Reals, Zeros;
    LayersFit(m, l);
    SilentLayer(lib, m, m.layers[l], Hidden(Reals(lib), m, tokens, l));
  }

  /** When every layer is silent the logits are those of the last token's embedding. */
  lemma SilentModel(lib: Library, m: Model<real>, tokens: seq<int>)
    requires ModelShaped(m) && InVocab(tokens, m.vocab) && tokens != []
    requires forall l: nat | l < |m.layers| :: Zeros(m.layers[l].attnOut.w) && Zeros(m.layers[l].down.w)
    ensures var last := m.embedding[tokens[|tokens| - 1]];
            Logits(Reals(lib), m, tokens) == MatVec(Reals(lib), m.output, Norm(Reals(lib), last, m.outNorm))
  {
    hide MatVec, Norm, Reals, LayerRows, Zeros;
    SilentLayers(lib, m, tokens, |m.layers|);
  }

  lemma {:induction false} SilentLayers(lib: Library, m: Model<real>, tokens: seq<int>, l: nat)
    requires ModelShaped(m) && InVocab(tokens, m.vocab) && l <= |m.layers|
    requires forall i: nat | i < |m.layers| :: Zeros(m.layers[i].attnOut.w) && Zeros(m.layers[i].down.w)
    ensures forall t: nat | t < |tokens| :: Hidden(Reals(lib), m, tokens, l)[t] == m.embedding[tokens[t]]
  {
    hide LayerRows, Reals, Zeros;
    if l > 0 {
      SilentLayers(lib, m, tokens, l - 1);
      SilentStep(lib, m, tokens, l - 1);
    }
  }

  // ---------------------------------------------------------------- queries, keys and values

  /** Scores see positions only through their difference: query matrix against key matrix, both of the normalized
      input, the query turned by the distance. */
  lemma ScoresAreRelative(lib: Library, m: Model<real>, l: Layer<real>, x: seq<real>, y: seq<real>, p: nat, r: nat,
                          h: nat, g: nat)
    requires Fits(m, l) && |x| == |y| == m.dim && r <= p && h < m.heads && g < m.kvHeads
    requires forall i: nat | i < HeadDim(m) / 2 :: Rotates(lib.turn, i, HeadDim(m))
    ensures 0 <= h * HeadDim(m) && h * HeadDim(m) + HeadDim(m) <= m.dim
    ensures 0 <= g * HeadDim(m) && g * HeadDim(m) + HeadDim(m) <= KvDim(m)
    ensures var ar, hd := Reals(lib), HeadDim(m);
            var q, k := MatVec(ar, l.q, Norm(ar, x, l.attnNorm)), MatVec(ar, l.k, Norm(ar, y, l.attnNorm));
            Score(ar, Query(ar, m, l, x, p), h * hd, KeyOf(ar, m, l, y, r), g * hd, hd) ==
            Score(ar, Roped(ar, q, m.heads, hd, p - r), h * hd, k, g * hd, hd)
  {
    hide MatVec, Norm, Roped, Score, Reals, Rotates;
    var ar, hd := Reals(lib), HeadDim(m);
    var q, k := MatVec(ar, l.q, Norm(ar, x, l.attnNorm)), MatVec(ar, l.k, Norm(ar, y, l.attnNorm));
    RelativePosition(lib, q, m.heads, h, k, m.kvHeads, g, hd, p, r);
  }

  // ---------------------------------------------------------------- the gate

  /** A matrix with every entry multiplied. */
  function Scaled(m: Dense<real>, f: real): (r: Dense<real>)
    ensures r.rows == m.rows && r.cols == m.cols && |r.w| == |m.w|
  {
    m.(w := seq(|m.w|, i requires 0 <= i < |m.w| => Times(f, m.w[i])))
  }

  lemma ScaledSlice(m: Dense<real>, f: real, at: nat)
    requires at + m.cols <= |m.w|
    ensures Multiple(Scaled(m, f).w[at..at + m.cols], m.w[at..at + m.cols], f)
  {
    hide Times;
  }

  lemma ScaledProduct(lib: Library, m: Dense<real>, f: real, x: seq<real>, r: nat)
    requires |m.w| == m.rows * m.cols && |x| == m.cols && r < m.rows
    ensures MatVec(Reals(lib), Scaled(m, f), x)[r] == Times(f, MatVec(Reals(lib), m, x)[r])
  {
    hide MatVec, Inner, Reals, Times;
    var at := r * m.cols;
    RowIsInner(lib, m, x, r);
    RowIsInner(lib, Scaled(m, f), x, r);
    var row, scaled := m.w[at..at + m.cols], Scaled(m, f).w[at..at + m.cols];
    ScaledSlice(m, f, at);
    InnerScaled(x, row, scaled, f);
    InnerSwap(x, row);
    InnerSwap(x, scaled);
  }

  lemma ProductScaled(lib: Library, m: Dense<real>, x: seq<real>, y: seq<real>, f: real, r: nat)
    requires |m.w| == m.rows * m.cols && |x| == |y| == m.cols && r < m.rows && Multiple(y, x, f)
    ensures MatVec(Reals(lib), m, y)[r] == Times(f, MatVec(Reals(lib), m, x)[r])
  {
    hide MatVec, Inner, Reals, Times;
    RowIsInner(lib, m, x, r);
    RowIsInner(lib, m, y, r);
    InnerScaled(m.w[r * m.cols..r * m.cols + m.cols], x, y, f);
  }

  /** Scaling the ungated half scales the gated product. */
  lemma GatedScaled(lib: Library, g: seq<real>, u: seq<real>, v: seq<real>, f: real)
    requires |g| == |u| && Multiple(v, u, f)
    ensures Multiple(Gated(Reals(lib), g, v), Gated(Reals(lib), g, u), f)
  {
    forall j | 0 <= j < |g|
      ensures Gated(Reals(lib), g, v)[j] == Times(f, Gated(Reals(lib), g, u)[j])
    {
      GateScaled(g[j] * lib.logistic(g[j]), u[j], v[j], f);
    }
  }

  lemma GateScaled(s: real, u: real, v: real, f: real)
    requires v == Times(f, u)
    ensures s * v == Times(f, s * u)
  {
    assert s * v == s * (f * u);
  }

  /** The feed-forward block is linear in its `up` matrix: what it adds to the stream scales with it. The gate is the
      one that is not. */
  lemma FfnLinearInUp(lib: Library, m: Model<real>, l: Layer<real>, x: seq<real>, f: real, i: nat)
    requires Fits(m, l) && |x| == m.dim && i < m.dim
    ensures var l' := l.(up := Scaled(l.up, f));
            Fits(m, l')
            && AfterFfn(Reals(lib), m, l', x)[i] - x[i] == Times(f, AfterFfn(Reals(lib), m, l, x)[i] - x[i])
  {
    hide MatVec, Norm, Scaled, Gated, Times, Reals, Plus, Multiple;
    var ar, l' := Reals(lib), l.(up := Scaled(l.up, f));
    var h := Norm(ar, x, l.ffnNorm);
    var g, u, v := MatVec(ar, l.gate, h), MatVec(ar, l.up, h), MatVec(ar, l'.up, h);
    ScaledVector(lib, l.up, f, h);
    GatedScaled(lib, g, u, v, f);
    var a, b := Gated(ar, g, u), Gated(ar, g, v);
    ProductScaled(lib, l.down, a, b, f, i);
    PlusAt(lib, x, MatVec(ar, l.down, a), i);
    PlusAt(lib, x, MatVec(ar, l.down, b), i);
  }

  lemma ScaledVector(lib: Library, m: Dense<real>, f: real, x: seq<real>)
    requires |m.w| == m.rows * m.cols && |x| == m.cols
    ensures Multiple(MatVec(Reals(lib), Scaled(m, f), x), MatVec(Reals(lib), m, x), f)
  {
    hide MatVec, Reals, Times, Scaled;
    var y := MatVec(Reals(lib), m, x);
    forall r | 0 <= r < |y|
      ensures MatVec(Reals(lib), Scaled(m, f), x)[r] == Times(f, y[r])
    {
      ScaledProduct(lib, m, f, x, r);
    }
  }

  lemma PlusAt(lib: Library, x: seq<real>, o: seq<real>, i: nat)
    requires |x| == |o| && i < |x|
    ensures Plus(Reals(lib), x, o)[i] - x[i] == o[i]
  {
  }

  /** With the gate closed nothing is added. */
  lemma ClosedGate(lib: Library, m: Model<real>, l: Layer<real>, x: seq<real>)
    requires Fits(m, l) && |x| == m.dim && (Zeros(l.gate.w) || Zeros(l.up.w) || Zeros(l.ffnNorm.w))
    ensures AfterFfn(Reals(lib), m, l, x) == x
  {
    hide MatVec, Plus;
    var ar := Reals(lib);
    var h := Norm(ar, x, l.ffnNorm);
    if Zeros(l.ffnNorm.w) { assert Zeros(h); }
    var g, u := MatVec(ar, l.gate, h), MatVec(ar, l.up, h);
    if Zeros(l.up.w) { ZeroProduct(lib, l.up, h); } else { ZeroProduct(lib, l.gate, h); }
    var a := Gated(ar, g, u);
    assert Zeros(a);
    ZeroProduct(lib, l.down, a);
    PlusZeros(lib, x, MatVec(ar, l.down, a));
  }
}
