/** The host reference forward pass, with every floating-point operation an uninterpreted function. */
module Reference {
  import opened Numbers

  /** The arithmetic of the pass: `F` is float, `D` is double. Nothing is assumed about any operation. */
  datatype Arith<!F, !D> = Arith(
    zero: F, fadd: (F, F) -> F, fsub: (F, F) -> F, fmul: (F, F) -> F, silu: (F, F) -> F,
    dzero: D, dlow: D, dadd: (D, D) -> D, dmul: (D, D) -> D, dmax: (D, D) -> D, widen: F -> D,
    invRms: (D, nat) -> F, turn: (nat, nat, nat) -> (F, F), scale: nat -> D, expDiff: (D, D) -> D, weight: (D, D) -> F)

  /** A row-major matrix; a vector has one row. */
  datatype Dense<F> = Dense(w: seq<F>, rows: nat, cols: nat)

  datatype Layer<F> = Layer(
    attnNorm: Dense<F>, q: Dense<F>, k: Dense<F>, v: Dense<F>, attnOut: Dense<F>,
    ffnNorm: Dense<F>, gate: Dense<F>, up: Dense<F>, down: Dense<F>)

  datatype Model<F> = Model(
    dim: nat, heads: nat, kvHeads: nat, ffn: nat, vocab: nat,
    embedding: seq<seq<F>>, layers: seq<Layer<F>>, outNorm: Dense<F>, output: Dense<F>)

  // ---------------------------------------------------------------- shapes

  predicate Shaped<F>(m: Dense<F>, rows: nat, cols: nat) {
    m.rows == rows && m.cols == cols && |m.w| == rows * cols
  }

  predicate LayerShaped<F>(l: Layer<F>, dim: nat, kvDim: nat, ffn: nat) {
    && Shaped(l.attnNorm, 1, dim) && Shaped(l.q, dim, dim) && Shaped(l.k, kvDim, dim) && Shaped(l.v, kvDim, dim)
    && Shaped(l.attnOut, dim, dim) && Shaped(l.ffnNorm, 1, dim) && Shaped(l.gate, ffn, dim) && Shaped(l.up, ffn, dim)
    && Shaped(l.down, dim, ffn)
  }

  /** What the configuration and the tensor manifest guarantee. */
  predicate ModelShaped<F>(m: Model<F>) {
    && m.dim > 0 && m.heads > 0 && m.kvHeads > 0 && m.dim % m.heads == 0 && m.heads % m.kvHeads == 0
    && |m.embedding| == m.vocab && (forall t: nat | t < m.vocab :: |m.embedding[t]| == m.dim)
    && (forall l: nat | l < |m.layers| :: LayerShaped(m.layers[l], m.dim, m.kvHeads * (m.dim / m.heads), m.ffn))
    && Shaped(m.outNorm, 1, m.dim) && Shaped(m.output, m.vocab, m.dim)
  }

  function HeadDim<F>(m: Model<F>): nat
    requires m.heads > 0
  {
    m.dim / m.heads
  }

  /** Entry (r, c) of a matrix with `cols` columns lies inside it. */
  lemma RowFits(rows: nat, cols: nat, r: nat, c: nat)
    requires r < rows && c < cols
    ensures r * cols + c < rows * cols
  {
    assert (r + 1) * cols <= rows * cols;
  }

  /** `attention_heads % kv_heads == 0` is what keeps the key/value head of every query head in range. */
  lemma GroupFits(heads: nat, kvHeads: nat, h: nat)
    requires 0 < kvHeads && heads % kvHeads == 0 && h < heads
    ensures heads / kvHeads > 0 && h / (heads / kvHeads) < kvHeads
  {
    var group := heads / kvHeads;
    assert heads == group * kvHeads;
    assert group > 0;
    MulLe(kvHeads, h / group, group);
    assert h >= (h / group) * group;
  }

  // ---------------------------------------------------------------- matrix product and norm

  /** Products summed from the left, starting from zero. */
  function Dot<F, D>(ar: Arith<F, D>, w: seq<F>, at: nat, x: seq<F>, n: nat): F
    requires at + n <= |w| && n <= |x|
  {
    if n == 0 then ar.zero else ar.fadd(Dot(ar, w, at, x, n - 1), ar.fmul(w[at + n - 1], x[n - 1]))
  }

  lemma RowEnd(rows: nat, cols: nat, r: nat)
    requires r < rows
    ensures r * cols + cols <= rows * cols
  {
    assert (r + 1) * cols <= rows * cols;
  }

  function Row<F, D>(ar: Arith<F, D>, m: Dense<F>, x: seq<F>, r: nat): F
    requires |m.w| == m.rows * m.cols && |x| == m.cols && r < m.rows
  {
    RowEnd(m.rows, m.cols, r);
    Dot(ar, m.w, r * m.cols, x, m.cols)
  }

  function MatVec<F, D>(ar: Arith<F, D>, m: Dense<F>, x: seq<F>): (y: seq<F>)
    requires |m.w| == m.rows * m.cols && |x| == m.cols
    ensures |y| == m.rows
  {
    seq(m.rows, r requires 0 <= r < m.rows => Row(ar, m, x, r))
  }

  method Mul<F, D>(ar: Arith<F, D>, m: Dense<F>, x: seq<F>) returns (y: seq<F>)
    requires |m.w| == m.rows * m.cols && |x| == m.cols
    ensures y == MatVec(ar, m, x)
  {
    y := [];
    for r := 0 to m.rows
      invariant |y| == r && forall i | 0 <= i < r :: y[i] == Row(ar, m, x, i)
    {
      RowEnd(m.rows, m.cols, r);
      var s := ar.zero;
      for c := 0 to m.cols
        invariant s == Dot(ar, m.w, r * m.cols, x, c)
      {
        s := ar.fadd(s, ar.fmul(m.w[r * m.cols + c], x[c]));
      }
      y := y + [s];
    }
  }

  function SumSquares<F, D>(ar: Arith<F, D>, x: seq<F>, n: nat): D
    requires n <= |x|
  {
    if n == 0 then ar.dzero
    else ar.dadd(SumSquares(ar, x, n - 1), ar.dmul(ar.widen(x[n - 1]), ar.widen(x[n - 1])))
  }

  function Norm<F, D>(ar: Arith<F, D>, x: seq<F>, w: Dense<F>): (y: seq<F>)
    requires |w.w| == |x|
    ensures |y| == |x|
  {
    var inv := ar.invRms(SumSquares(ar, x, |x|), |x|);
    seq(|x|, i requires 0 <= i < |x| => ar.fmul(ar.fmul(x[i], inv), w.w[i]))
  }

  method RmsNorm<F, D>(ar: Arith<F, D>, x: seq<F>, w: Dense<F>) returns (y: seq<F>)
    requires |w.w| == |x|
    ensures y == Norm(ar, x, w)
  {
    var ss := ar.dzero;
    for i := 0 to |x|
      invariant ss == SumSquares(ar, x, i)
    {
      ss := ar.dadd(ss, ar.dmul(ar.widen(x[i]), ar.widen(x[i])));
    }
    var inv := ar.invRms(ss, |x|);
    y := [];
    for i := 0 to |x|
      invariant |y| == i && forall j | 0 <= j < i :: y[j] == ar.fmul(ar.fmul(x[j], inv), w.w[j])
    {
      y := y + [ar.fmul(ar.fmul(x[i], inv), w.w[i])];
    }
  }

  /** The residual update `xs[t][i] += o[i]`. */
  function Plus<F, D>(ar: Arith<F, D>, x: seq<F>, o: seq<F>): (y: seq<F>)
    requires |x| == |o|
    ensures |y| == |x|
  {
    seq(|x|, i requires 0 <= i < |x| => ar.fadd(x[i], o[i]))
  }

  method AddInto<F, D>(ar: Arith<F, D>, x: seq<F>, o: seq<F>) returns (y: seq<F>)
    requires |x| == |o|
    ensures y == Plus(ar, x, o)
  {
    y := x;
    for i := 0 to |x|
      invariant |y| == |x|
      invariant forall j | 0 <= j < |x| :: y[j] == if j < i then ar.fadd(x[j], o[j]) else x[j]
    {
      y := y[i := ar.fadd(y[i], o[i])];
    }
  }

  // ---------------------------------------------------------------- rotary embedding

  lemma HeadIndex(heads: nat, hd: nat, h: nat, k: nat)
    requires h < heads && k < hd
    ensures h * hd + k < heads * hd && (h * hd + k) / hd == h && (h * hd + k) % hd == k
  {
    RowFits(heads, hd, h, k);
    DivModUnique(h * hd + k, hd, h, k);
  }

  lemma PairInside(n: nat, heads: nat, hd: nat)
    requires n < heads * hd && (n % hd) / 2 < hd / 2
    ensures n % hd % 2 == 0 ==> n + 1 < heads * hd
    ensures n % hd % 2 == 1 ==> n >= 1
  {
    var h, k := SplitIndex(n, heads, hd);
    PairRoom(n, heads, hd, h, k);
  }

  lemma SplitIndex(n: nat, heads: nat, hd: nat) returns (h: nat, k: nat)
    requires n < heads * hd
    ensures hd > 0
    ensures h == n / hd && k == n % hd && h < heads && k < hd && n == h * hd + k
  {
    InHead(n, heads, hd);
    h, k := n / hd, n % hd;
  }

  lemma PairRoom(n: nat, heads: nat, hd: nat, h: nat, k: nat)
    requires h < heads && k < hd && k / 2 < hd / 2 && n == h * hd + k
    ensures k % 2 == 0 ==> n + 1 < heads * hd
    ensures k % 2 == 1 ==> n >= 1
  {
    MulLe(0, h, hd);
    if k % 2 == 0 { RowFits(heads, hd, h, k + 1); }
  }

  /** Coordinate `n` after rotation: pairs (2i, 2i+1) of each head turn by one angle; the last coordinate of
      an odd head is left alone. */
  function Turned<F, D>(ar: Arith<F, D>, v: seq<F>, heads: nat, hd: nat, pos: nat, n: nat): F
    requires n < |v| == heads * hd
  {
    var k := n % hd;
    var i := k / 2;
    if i >= hd / 2 then v[n]
    else
      PairInside(n, heads, hd);
      var (c, s) := ar.turn(pos, i, hd);
      if k % 2 == 0 then ar.fsub(ar.fmul(v[n], c), ar.fmul(v[n + 1], s))
      else ar.fadd(ar.fmul(v[n - 1], s), ar.fmul(v[n], c))
  }

  function Roped<F, D>(ar: Arith<F, D>, v: seq<F>, heads: nat, hd: nat, pos: nat): (r: seq<F>)
    requires |v| == heads * hd
    ensures |r| == |v|
  {
    seq(|v|, n requires 0 <= n < |v| => Turned(ar, v, heads, hd, pos, n))
  }

  /** Coordinates whose pair comes before pair `i` of head `h`. */
  predicate Before(n: nat, hd: nat, h: nat, i: nat)
    requires hd > 0
  {
    n / hd < h || (n / hd == h && (n % hd) / 2 < i)
  }

  lemma BeforeNext(n: nat, hd: nat, h: nat, i: nat)
    requires hd > 0
    ensures Before(n, hd, h, i + 1) <==>
            Before(n, hd, h, i) || (n == h * hd + 2 * i && 2 * i < hd) || (n == h * hd + 2 * i + 1 && 2 * i + 1 < hd)
  {
    var q, r := n / hd, n % hd;
    assert n == q * hd + r;
    if n == h * hd + 2 * i && 2 * i < hd { DivModUnique(n, hd, h, 2 * i); }
    if n == h * hd + 2 * i + 1 && 2 * i + 1 < hd { DivModUnique(n, hd, h, 2 * i + 1); }
  }

  lemma InHead(n: nat, heads: nat, hd: nat)
    requires n < heads * hd
    ensures hd > 0
    ensures n / hd < heads
  {
    MulLe(heads, n / hd, hd);
  }

  ghost predicate TurnedUpTo<F, D>(ar: Arith<F, D>, v: seq<F>, r: seq<F>, heads: nat, hd: nat, pos: nat, h: nat, i: nat)
    requires |v| == heads * hd && hd > 0
  {
    && |r| == |v|
    && forall n: nat | n < |v| :: r[n] == if Before(n, hd, h, i) then Turned(ar, v, heads, hd, pos, n) else v[n]
  }

  /** Rotating pair `i` of head `h` moves the boundary by one pair. */
  lemma PairTurned<F, D>(ar: Arith<F, D>, v: seq<F>, r: seq<F>, r': seq<F>, heads: nat, hd: nat, pos: nat, h: nat,
                         i: nat)
    requires |v| == heads * hd && hd > 0 && h < heads && i < hd / 2
    requires TurnedUpTo(ar, v, r, heads, hd, pos, h, i)
    requires h * hd + 2 * i + 1 < |r|
    requires var turn := ar.turn(pos, i, hd); var at := h * hd + 2 * i;
             r' == r[at := ar.fsub(ar.fmul(r[at], turn.0), ar.fmul(r[at + 1], turn.1))]
                    [at + 1 := ar.fadd(ar.fmul(r[at], turn.1), ar.fmul(r[at + 1], turn.0))]
    ensures TurnedUpTo(ar, v, r', heads, hd, pos, h, i + 1)
  {
    var at := h * hd + 2 * i;
    HeadIndex(heads, hd, h, 2 * i);
    HeadIndex(heads, hd, h, 2 * i + 1);
    assert r[at] == v[at] && r[at + 1] == v[at + 1];
    forall n: nat | n < |v|
      ensures r'[n] == if Before(n, hd, h, i + 1) then Turned(ar, v, heads, hd, pos, n) else v[n]
    {
      BeforeNext(n, hd, h, i);
    }
  }

  /** After its last pair a head is done: what is left of it does not turn. */
  lemma HeadTurned<F, D>(ar: Arith<F, D>, v: seq<F>, r: seq<F>, heads: nat, hd: nat, pos: nat, h: nat)
    requires |v| == heads * hd && hd > 0
    requires TurnedUpTo(ar, v, r, heads, hd, pos, h, hd / 2)
    ensures TurnedUpTo(ar, v, r, heads, hd, pos, h + 1, 0)
  {
  }

  lemma AllTurned<F, D>(ar: Arith<F, D>, v: seq<F>, r: seq<F>, heads: nat, hd: nat, pos: nat)
    requires |v| == heads * hd && hd > 0
    requires TurnedUpTo(ar, v, r, heads, hd, pos, heads, 0)
    ensures r == Roped(ar, v, heads, hd, pos)
  {
    forall n: nat | n < |v|
      ensures r[n] == Turned(ar, v, heads, hd, pos, n)
    {
      InHead(n, heads, hd);
    }
  }

  /** Rotates `v` in place, one pair at a time. */
  method Rope<F, D>(ar: Arith<F, D>, v: seq<F>, heads: nat, hd: nat, pos: nat) returns (r: seq<F>)
    requires |v| == heads * hd && hd > 0
    ensures r == Roped(ar, v, heads, hd, pos)
  {
    hide Turned, Roped;
    r := v;
    assert TurnedUpTo(ar, v, r, heads, hd, pos, 0, 0);
    for h := 0 to heads
      invariant TurnedUpTo(ar, v, r, heads, hd, pos, h, 0)
    {
      for i := 0 to hd / 2
        invariant TurnedUpTo(ar, v, r, heads, hd, pos, h, i)
      {
        HeadIndex(heads, hd, h, 2 * i);
        HeadIndex(heads, hd, h, 2 * i + 1);
        ghost var before := r;
        var turn := ar.turn(pos, i, hd);
        var a0, b0 := r[h * hd + 2 * i], r[h * hd + 2 * i + 1];
        r := r[h * hd + 2 * i := ar.fsub(ar.fmul(a0, turn.0), ar.fmul(b0, turn.1))];
        r := r[h * hd + 2 * i + 1 := ar.fadd(ar.fmul(a0, turn.1), ar.fmul(b0, turn.0))];
        PairTurned(ar, v, before, r, heads, hd, pos, h, i);
      }
      HeadTurned(ar, v, r, heads, hd, pos, h);
    }
    AllTurned(ar, v, r, heads, hd, pos);
  }

  // ---------------------------------------------------------------- attention

  function Score<F, D>(ar: Arith<F, D>, q: seq<F>, qAt: nat, k: seq<F>, kAt: nat, n: nat): D
    requires qAt + n <= |q| && kAt + n <= |k|
  {
    if n == 0 then ar.dzero
    else ar.dadd(Score(ar, q, qAt, k, kAt, n - 1), ar.dmul(ar.widen(q[qAt + n - 1]), ar.widen(k[kAt + n - 1])))
  }

  function Largest<F, D>(ar: Arith<F, D>, logits: seq<D>, n: nat): D
    requires n <= |logits|
  {
    if n == 0 then ar.dlow else ar.dmax(Largest(ar, logits, n - 1), logits[n - 1])
  }

  function Partition<F, D>(ar: Arith<F, D>, logits: seq<D>, mx: D, n: nat): D
    requires n <= |logits|
  {
    if n == 0 then ar.dzero else ar.dadd(Partition(ar, logits, mx, n - 1), ar.expDiff(logits[n - 1], mx))
  }

  /** The rows of a cache, each `width` long. */
  predicate Rows<F>(rows: seq<seq<F>>, width: nat) {
    forall j: nat | j < |rows| :: |rows[j]| == width
  }

  /** One query head against one key/value head of every cached position. */
  function HeadLogits<F, D>(ar: Arith<F, D>, q: seq<F>, qAt: nat, ks: seq<seq<F>>, kAt: nat, hd: nat): (r: seq<D>)
    requires qAt + hd <= |q| && forall j: nat | j < |ks| :: kAt + hd <= |ks[j]|
    ensures |r| == |ks|
  {
    seq(|ks|, j requires 0 <= j < |ks| => ar.dmul(Score(ar, q, qAt, ks[j], kAt, hd), ar.scale(hd)))
  }

  function HeadWeight<F, D>(ar: Arith<F, D>, logits: seq<D>, j: nat): F
    requires j < |logits|
  {
    var mx := Largest(ar, logits, |logits|);
    ar.weight(ar.expDiff(logits[j], mx), Partition(ar, logits, mx, |logits|))
  }

  /** Values of the first `n` positions at coordinate `at`, weighted and summed from the left. */
  function Mixed<F, D>(ar: Arith<F, D>, logits: seq<D>, vs: seq<seq<F>>, at: nat, n: nat): F
    requires n <= |logits| == |vs| && forall j: nat | j < |vs| :: at < |vs[j]|
  {
    if n == 0 then ar.zero
    else ar.fadd(Mixed(ar, logits, vs, at, n - 1), ar.fmul(HeadWeight(ar, logits, n - 1), vs[n - 1][at]))
  }

  /** Head counts and widths that fit together. */
  predicate Heads(heads: nat, kvHeads: nat, hd: nat) {
    0 < kvHeads && 0 < heads && heads % kvHeads == 0 && 0 < hd
  }

  function KvHead(heads: nat, kvHeads: nat, h: nat): (r: nat)
    requires 0 < kvHeads && heads % kvHeads == 0 && h < heads
    ensures r < kvHeads
  {
    GroupFits(heads, kvHeads, h);
    h / (heads / kvHeads)
  }

  /** Coordinate `c` of query head `h` after attention over the cached rows. */
  function Attended<F, D>(ar: Arith<F, D>, heads: nat, kvHeads: nat, hd: nat, q: seq<F>, ks: seq<seq<F>>,
                          vs: seq<seq<F>>,
                          h: nat, c: nat): F
    requires Heads(heads, kvHeads, hd) && |q| == heads * hd && |ks| == |vs|
    requires Rows(ks, kvHeads * hd) && Rows(vs, kvHeads * hd) && h < heads && c < hd
  {
    var g := KvHead(heads, kvHeads, h);
    RowEnd(heads, hd, h);
    RowEnd(kvHeads, hd, g);
    Mixed(ar, HeadLogits(ar, q, h * hd, ks, g * hd, hd), vs, g * hd + c, |vs|)
  }

  function Attention<F, D>(ar: Arith<F, D>, heads: nat, kvHeads: nat, hd: nat, q: seq<F>, ks: seq<seq<F>>,
                           vs: seq<seq<F>>): (r: seq<F>)
    requires Heads(heads, kvHeads, hd) && |q| == heads * hd && |ks| == |vs|
    requires Rows(ks, kvHeads * hd) && Rows(vs, kvHeads * hd)
    ensures |r| == heads * hd
  {
    seq(heads * hd, n requires 0 <= n < heads * hd =>
      InHead(n, heads, hd);
      Attended(ar, heads, kvHeads, hd, q, ks, vs, n / hd, n % hd))
  }

  /** Accumulates one head into its slice of `att`. */
  method AttendHead<F, D>(ar: Arith<F, D>, hd: nat, q: seq<F>, qAt: nat, ks: seq<seq<F>>, vs: seq<seq<F>>, kAt: nat,
                          att: seq<F>)
    returns (r: seq<F>)
    requires qAt + hd <= |q| && |ks| == |vs| && qAt + hd <= |att|
    requires forall j: nat | j < |ks| :: kAt + hd <= |ks[j]| && kAt + hd <= |vs[j]|
    requires forall n: nat | qAt <= n < qAt + hd :: att[n] == ar.zero
    ensures |r| == |att|
    ensures forall n: nat | qAt <= n < qAt + hd ::
              r[n] == Mixed(ar, HeadLogits(ar, q, qAt, ks, kAt, hd), vs, kAt + (n - qAt), |vs|)
    ensures forall n: nat | n < |att| && !(qAt <= n < qAt + hd) :: r[n] == att[n]
  {
    ghost var goal := HeadLogits(ar, q, qAt, ks, kAt, hd);
    var logits: seq<D> := [];
    var mx := ar.dlow;
    for j := 0 to |ks|
      invariant |logits| == j && forall i | 0 <= i < j :: logits[i] == goal[i]
      invariant mx == Largest(ar, goal, j)
    {
      var s := ar.dzero;
      for c := 0 to hd
        invariant s == Score(ar, q, qAt, ks[j], kAt, c)
      {
        s := ar.dadd(s, ar.dmul(ar.widen(q[qAt + c]), ar.widen(ks[j][kAt + c])));
      }
      logits := logits + [ar.dmul(s, ar.scale(hd))];
      mx := ar.dmax(mx, logits[j]);
    }
    assert logits == goal;
    var z := ar.dzero;
    for j := 0 to |logits|
      invariant z == Partition(ar, logits, mx, j)
    {
      z := ar.dadd(z, ar.expDiff(logits[j], mx));
    }
    r := att;
    for j := 0 to |vs|
      invariant |r| == |att|
      invariant forall n: nat | qAt <= n < qAt + hd :: r[n] == Mixed(ar, logits, vs, kAt + (n - qAt), j)
      invariant forall n: nat | n < |att| && !(qAt <= n < qAt + hd) :: r[n] == att[n]
    {
      var wgt := ar.weight(ar.expDiff(logits[j], mx), z);
      r := Accumulate(ar, logits, wgt, hd, qAt, vs, kAt, j, r);
    }
  }

  /** Adds one position's weighted values to a head's slice. */
  method Accumulate<F, D>(ar: Arith<F, D>, ghost logits: seq<D>, wgt: F, hd: nat, qAt: nat, vs: seq<seq<F>>, kAt: nat,
                          j: nat, att: seq<F>)
    returns (r: seq<F>)
    requires j < |logits| == |vs| && qAt + hd <= |att| && wgt == HeadWeight(ar, logits, j)
    requires forall i: nat | i < |vs| :: kAt + hd <= |vs[i]|
    requires forall n: nat | qAt <= n < qAt + hd :: att[n] == Mixed(ar, logits, vs, kAt + (n - qAt), j)
    ensures |r| == |att|
    ensures forall n: nat | qAt <= n < qAt + hd :: r[n] == Mixed(ar, logits, vs, kAt + (n - qAt), j + 1)
    ensures forall n: nat | n < |att| && !(qAt <= n < qAt + hd) :: r[n] == att[n]
  {
    hide HeadWeight;
    r := att;
    for c := 0 to hd
      invariant |r| == |att|
      invariant forall n: nat | qAt <= n < qAt + hd ::
                  r[n] == Mixed(ar, logits, vs, kAt + (n - qAt), if n < qAt + c then j + 1 else j)
      invariant forall n: nat | n < |att| && !(qAt <= n < qAt + hd) :: r[n] == att[n]
    {
      r := r[qAt + c := ar.fadd(r[qAt + c], ar.fmul(wgt, vs[j][kAt + c]))];
    }
  }

  /** Coordinates of the heads before `h` are attended, the others still zero. */
  ghost predicate AttendedUpTo<F, D>(ar: Arith<F, D>, heads: nat, kvHeads: nat, hd: nat, q: seq<F>, ks: seq<seq<F>>,
                                     vs: seq<seq<F>>, att: seq<F>, h: nat)
    requires Heads(heads, kvHeads, hd) && |q| == heads * hd && |ks| == |vs|
    requires Rows(ks, kvHeads * hd) && Rows(vs, kvHeads * hd)
  {
    && |att| == heads * hd
    && var goal := Attention(ar, heads, kvHeads, hd, q, ks, vs);
       forall n: nat | n < |att| :: att[n] == if n < h * hd then goal[n] else ar.zero
  }

  lemma AttentionAt<F, D>(ar: Arith<F, D>, heads: nat, kvHeads: nat, hd: nat, q: seq<F>, ks: seq<seq<F>>,
                          vs: seq<seq<F>>, h: nat, n: nat)
    requires Heads(heads, kvHeads, hd) && |q| == heads * hd && |ks| == |vs|
    requires Rows(ks, kvHeads * hd) && Rows(vs, kvHeads * hd) && h < heads && h * hd <= n < h * hd + hd
    ensures n < heads * hd
    ensures Attention(ar, heads, kvHeads, hd, q, ks, vs)[n] ==
            Attended(ar, heads, kvHeads, hd, q, ks, vs, h, n - h * hd)
  {
    hide Attended;
    HeadIndex(heads, hd, h, n - h * hd);
  }

  lemma HeadDone<F, D>(ar: Arith<F, D>, heads: nat, kvHeads: nat, hd: nat, q: seq<F>, ks: seq<seq<F>>, vs: seq<seq<F>>,
                       att: seq<F>, att': seq<F>, h: nat, at: nat)
    requires Heads(heads, kvHeads, hd) && |q| == heads * hd && |ks| == |vs|
    requires Rows(ks, kvHeads * hd) && Rows(vs, kvHeads * hd)
    requires h < heads && at == h * hd && AttendedUpTo(ar, heads, kvHeads, hd, q, ks, vs, att, h)
    requires |att'| == |att| && at + hd <= |att|
    requires forall n: nat | at <= n < at + hd :: att'[n] == Attended(ar, heads, kvHeads, hd, q, ks, vs, h, n - at)
    requires forall n: nat | n < |att| && !(at <= n < at + hd) :: att'[n] == att[n]
    ensures AttendedUpTo(ar, heads, kvHeads, hd, q, ks, vs, att', h + 1)
  {
    hide Attended, Attention;
    assert (h + 1) * hd == at + hd;
    forall n: nat | n < |att'|
      ensures att'[n] == if n < at + hd then Attention(ar, heads, kvHeads, hd, q, ks, vs)[n] else ar.zero
    {
      if at <= n < at + hd {
        AttentionAt(ar, heads, kvHeads, hd, q, ks, vs, h, n);
      }
    }
  }

  /** Attention of one query over the cached rows. */
  method Attend<F, D>(ar: Arith<F, D>, heads: nat, kvHeads: nat, hd: nat, q: seq<F>, ks: seq<seq<F>>, vs: seq<seq<F>>)
    returns (att: seq<F>)
    requires Heads(heads, kvHeads, hd) && |q| == heads * hd && |ks| == |vs|
    requires Rows(ks, kvHeads * hd) && Rows(vs, kvHeads * hd)
    ensures att == Attention(ar, heads, kvHeads, hd, q, ks, vs)
  {
    hide Mixed, HeadLogits, Attention;
    assert 0 * hd == 0;
    att := seq(heads * hd, _ => ar.zero);
    for h := 0 to heads
      invariant AttendedUpTo(ar, heads, kvHeads, hd, q, ks, vs, att, h)
    {
      var kvh := KvHead(heads, kvHeads, h);
      RowEnd(heads, hd, h);
      RowEnd(kvHeads, hd, kvh);
      assert h * hd >= 0 && kvh * hd >= 0;
      ghost var before := att;
      att := AttendHead(ar, hd, q, h * hd, ks, vs, kvh * hd, att);
      HeadDone(ar, heads, kvHeads, hd, q, ks, vs, before, att, h, h * hd);
    }
  }
}
