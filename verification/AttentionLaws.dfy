/** Laws of rotary embedding and attention: which heads meet, what a rotation keeps, and what the weights do. */
module AttentionLaws {
  import opened Numbers
  import opened Reference

  // ---------------------------------------------------------------- grouped heads

  /** Query heads are grouped in order: the `i`-th head of group `g` reads key/value head `g`. */
  lemma KvHeadOf(heads: nat, kvHeads: nat, g: nat, i: nat)
    requires 0 < kvHeads && heads % kvHeads == 0 && g < kvHeads && i < heads / kvHeads
    ensures 0 <= g * (heads / kvHeads) && g * (heads / kvHeads) + i < heads
    ensures KvHead(heads, kvHeads, g * (heads / kvHeads) + i) == g
  {
    var group := heads / kvHeads;
    assert heads == kvHeads * group;
    RowFits(kvHeads, group, g, i);
    DivModUnique(g * group + i, group, g, i);
  }

  function Copies<F>(s: seq<F>, n: nat): (r: seq<F>)
    ensures |r| == n * |s|
  {
    if n == 0 then []
    else
      assert n * |s| == (n - 1) * |s| + |s|;
      Copies(s, n - 1) + s
  }

  /** A row of `kvHeads` heads with every head written `group` times. */
  function Repeated<F>(row: seq<F>, hd: nat, kvHeads: nat, group: nat): (r: seq<F>)
    requires kvHeads * hd <= |row|
    ensures |r| == kvHeads * (group * hd)
  {
    if kvHeads == 0 then []
    else
      var n := kvHeads - 1;
      assert kvHeads * hd == n * hd + hd && kvHeads * (group * hd) == n * (group * hd) + group * hd;
      MulLe(0, n, hd);
      Repeated(row, hd, n, group) + Copies(row[n * hd..n * hd + hd], group)
  }

  lemma {:induction false} CopiesAt<F>(s: seq<F>, n: nat, i: nat, c: nat)
    requires i < n && c < |s|
    ensures 0 <= i * |s| + c < |Copies(s, n)| && Copies(s, n)[i * |s| + c] == s[c]
    decreases n
  {
    RowFits(n, |s|, i, c);
    assert n * |s| == (n - 1) * |s| + |s|;
    if i < n - 1 { CopiesAt(s, n - 1, i, c); }
  }

  lemma RepeatedStep<F>(row: seq<F>, hd: nat, n: nat, group: nat)
    requires (n + 1) * hd <= |row|
    ensures 0 <= n * hd <= n * hd + hd <= |row|
    ensures Repeated(row, hd, n + 1, group) == Repeated(row, hd, n, group) + Copies(row[n * hd..n * hd + hd], group)
  {
    assert (n + 1) * hd == n * hd + hd;
    MulLe(0, n, hd);
  }

  lemma RepeatedIndex(hd: nat, kvHeads: nat, group: nat, g: nat, i: nat, c: nat)
    requires g < kvHeads && i < group && c < hd
    ensures 0 <= g * hd && g * hd + c < kvHeads * hd
    ensures (g * group + i) * hd + c == g * (group * hd) + (i * hd + c)
    ensures 0 <= i * hd && i * hd + c < group * hd
    ensures 0 <= g * (group * hd) && g * (group * hd) + (i * hd + c) < kvHeads * (group * hd)
  {
    RowFits(kvHeads, hd, g, c);
    RowFits(group, hd, i, c);
    MulLe(0, g, hd);
    MulLe(0, i, hd);
    RowFits(kvHeads, group * hd, g, i * hd + c);
    MulLe(0, g, group * hd);
    assert (g * group + i) * hd == g * (group * hd) + i * hd;
  }

  lemma {:induction false} RepeatedAt<F>(row: seq<F>, hd: nat, kvHeads: nat, group: nat, g: nat, i: nat, c: nat)
    requires kvHeads * hd <= |row| && g < kvHeads && i < group && c < hd
    ensures 0 <= g * hd + c < |row| && 0 <= (g * group + i) * hd + c < |Repeated(row, hd, kvHeads, group)|
    ensures Repeated(row, hd, kvHeads, group)[(g * group + i) * hd + c] == row[g * hd + c]
    decreases kvHeads
  {
    hide Repeated, Copies;
    var n := kvHeads - 1;
    RepeatedIndex(hd, kvHeads, group, g, i, c);
    RepeatedStep(row, hd, n, group);
    if g < n {
      RepeatedAt(row, hd, n, group, g, i, c);
    } else {
      CopiesAt(row[n * hd..n * hd + hd], group, i, c);
    }
  }

  lemma {:induction false} SameScore<F, D>(ar: Arith<F, D>, q: seq<F>, qAt: nat, k: seq<F>, kAt: nat, l: seq<F>,
                                           lAt: nat, n: nat)
    requires qAt + n <= |q| && kAt + n <= |k| && lAt + n <= |l|
    requires k[kAt..kAt + n] == l[lAt..lAt + n]
    ensures Score(ar, q, qAt, k, kAt, n) == Score(ar, q, qAt, l, lAt, n)
  {
    if n > 0 {
      assert k[kAt..kAt + n][..n - 1] == k[kAt..kAt + (n - 1)] && l[lAt..lAt + n][..n - 1] == l[lAt..lAt + (n - 1)];
      assert k[kAt..kAt + n][n - 1] == l[lAt..lAt + n][n - 1];
      SameScore(ar, q, qAt, k, kAt, l, lAt, n - 1);
    }
  }

  lemma {:induction false} SameMix<F, D>(ar: Arith<F, D>, logits: seq<D>, vs: seq<seq<F>>, at: nat, ws: seq<seq<F>>,
                                         wAt: nat, n: nat)
    requires n <= |logits| == |vs| == |ws|
    requires forall j: nat | j < |vs| :: at < |vs[j]| && wAt < |ws[j]| && vs[j][at] == ws[j][wAt]
    ensures Mixed(ar, logits, vs, at, n) == Mixed(ar, logits, ws, wAt, n)
  {
    hide HeadWeight;
    if n > 0 { SameMix(ar, logits, vs, at, ws, wAt, n - 1); }
  }

  /** The rows of a cache with every head repeated. */
  function RepeatedRows<F>(rows: seq<seq<F>>, hd: nat, kvHeads: nat, group: nat): (r: seq<seq<F>>)
    requires Rows(rows, kvHeads * hd)
    ensures |r| == |rows| && Rows(r, kvHeads * (group * hd))
  {
    seq(|rows|, j requires 0 <= j < |rows| => Repeated(rows[j], hd, kvHeads, group))
  }

  /** A head of a row and its copies in the repeated row. */
  lemma RepeatedSlice<F>(row: seq<F>, hd: nat, kvHeads: nat, group: nat, g: nat, i: nat)
    requires kvHeads * hd <= |row| && g < kvHeads && i < group && hd > 0
    ensures 0 <= g * hd && g * hd + hd <= |row|
    ensures 0 <= (g * group + i) * hd && (g * group + i) * hd + hd <= |Repeated(row, hd, kvHeads, group)|
    ensures var h := g * group + i;
            Repeated(row, hd, kvHeads, group)[h * hd..h * hd + hd] == row[g * hd..g * hd + hd]
  {
    hide Repeated;
    var wide := Repeated(row, hd, kvHeads, group);
    var h := g * group + i;
    RepeatedIndex(hd, kvHeads, group, g, i, 0);
    RepeatedAt(row, hd, kvHeads, group, g, i, hd - 1);
    var s, t := wide[h * hd..h * hd + hd], row[g * hd..g * hd + hd];
    forall c: nat | c < hd
      ensures s[c] == t[c]
    {
      RepeatedAt(row, hd, kvHeads, group, g, i, c);
    }
  }

  lemma HeadRepeated<F, D>(ar: Arith<F, D>, kvHeads: nat, group: nat, hd: nat, q: seq<F>, ks: seq<seq<F>>,
                           vs: seq<seq<F>>, g: nat, h: nat, i: nat, c: nat, qAt: nat, kAt: nat)
    requires hd > 0 && |ks| == |vs| && Rows(ks, kvHeads * hd) && Rows(vs, kvHeads * hd)
    requires g < kvHeads && i < group && c < hd && h == g * group + i
    requires qAt == h * hd && kAt == g * hd && qAt + hd <= |q| <= kvHeads * (group * hd) && kAt + hd <= kvHeads * hd
    ensures var ks', vs' := RepeatedRows(ks, hd, kvHeads, group), RepeatedRows(vs, hd, kvHeads, group);
            Mixed(ar, HeadLogits(ar, q, qAt, ks, kAt, hd), vs, kAt + c, |vs|) ==
            Mixed(ar, HeadLogits(ar, q, qAt, ks', qAt, hd), vs', qAt + c, |vs|)
  {
    hide Mixed, Score, Repeated;
    var ks', vs' := RepeatedRows(ks, hd, kvHeads, group), RepeatedRows(vs, hd, kvHeads, group);
    forall j: nat | j < |ks|
      ensures Score(ar, q, qAt, ks[j], kAt, hd) == Score(ar, q, qAt, ks'[j], qAt, hd)
      ensures vs[j][kAt + c] == vs'[j][qAt + c]
    {
      RepeatedSlice(ks[j], hd, kvHeads, group, g, i);
      SameScore(ar, q, qAt, ks[j], kAt, ks'[j], qAt, hd);
      RepeatedSlice(vs[j], hd, kvHeads, group, g, i);
      assert vs[j][kAt..kAt + hd][c] == vs'[j][qAt..qAt + hd][c];
    }
    var logits := HeadLogits(ar, q, qAt, ks, kAt, hd);
    assert logits == HeadLogits(ar, q, qAt, ks', qAt, hd);
    SameMix(ar, logits, vs, kAt + c, vs', qAt + c, |vs|);
  }

  lemma AttendedRepeated<F, D>(ar: Arith<F, D>, heads: nat, kvHeads: nat, hd: nat, q: seq<F>, ks: seq<seq<F>>,
                               vs: seq<seq<F>>, ks': seq<seq<F>>, vs': seq<seq<F>>, g: nat, i: nat, c: nat)
    requires Heads(heads, kvHeads, hd) && Heads(heads, heads, hd) && |q| == heads * hd && |ks| == |vs|
    requires Rows(ks, kvHeads * hd) && Rows(vs, kvHeads * hd) && Rows(ks', heads * hd) && Rows(vs', heads * hd)
    requires ks' == RepeatedRows(ks, hd, kvHeads, heads / kvHeads)
    requires vs' == RepeatedRows(vs, hd, kvHeads, heads / kvHeads)
    requires g < kvHeads && i < heads / kvHeads && c < hd
    ensures 0 <= g * (heads / kvHeads) && g * (heads / kvHeads) + i < heads
    ensures var h := g * (heads / kvHeads) + i;
            Attended(ar, heads, kvHeads, hd, q, ks, vs, h, c) == Attended(ar, heads, heads, hd, q, ks', vs', h, c)
  {
    hide Mixed, HeadLogits, RepeatedRows, KvHead;
    var group := heads / kvHeads;
    RepeatedWidth(heads, kvHeads, hd);
    KvHeadOf(heads, kvHeads, g, i);
    var h := g * group + i;
    assert heads / heads == 1;
    KvHeadOf(heads, heads, h, 0);
    RowEnd(heads, hd, h);
    RowEnd(kvHeads, hd, g);
    MulLe(0, h, hd);
    MulLe(0, g, hd);
    HeadRepeated(ar, kvHeads, group, hd, q, ks, vs, g, h, i, c, h * hd, g * hd);
  }

  lemma RepeatedWidth(heads: nat, kvHeads: nat, hd: nat)
    requires Heads(heads, kvHeads, hd)
    ensures kvHeads * (heads / kvHeads * hd) == heads * hd && Heads(heads, heads, hd)
  {
    var group := heads / kvHeads;
    assert heads == kvHeads * group;
    assert kvHeads * (group * hd) == kvHeads * group * hd;
  }

  /** Grouped attention is multi-head attention on keys and values whose heads are repeated group by group, whatever
      the arithmetic. */
  lemma GroupedIsMultiHead<F, D>(ar: Arith<F, D>, heads: nat, kvHeads: nat, hd: nat, q: seq<F>, ks: seq<seq<F>>,
                                 vs: seq<seq<F>>)
    requires Heads(heads, kvHeads, hd) && |q| == heads * hd && |ks| == |vs|
    requires Rows(ks, kvHeads * hd) && Rows(vs, kvHeads * hd)
    ensures var group := heads / kvHeads;
            var ks', vs' := RepeatedRows(ks, hd, kvHeads, group), RepeatedRows(vs, hd, kvHeads, group);
            && Heads(heads, heads, hd) && Rows(ks', heads * hd) && Rows(vs', heads * hd)
            && Attention(ar, heads, kvHeads, hd, q, ks, vs) == Attention(ar, heads, heads, hd, q, ks', vs')
  {
    hide Attended, Repeated, KvHead;
    var group := heads / kvHeads;
    RepeatedWidth(heads, kvHeads, hd);
    var ks', vs' := RepeatedRows(ks, hd, kvHeads, group), RepeatedRows(vs, hd, kvHeads, group);
    var plain, repeated := Attention(ar, heads, kvHeads, hd, q, ks, vs), Attention(ar, heads, heads, hd, q, ks', vs');
    forall n: nat | n < heads * hd
      ensures plain[n] == repeated[n]
    {
      var h, c := SplitIndex(n, heads, hd);
      var g, i := SplitIndex(h, kvHeads, group);
      AttendedRepeated(ar, heads, kvHeads, hd, q, ks, vs, ks', vs', g, i, c);
    }
  }

  // ---------------------------------------------------------------- rotation

  /** Pair `i` of head `h` turns by the angle of its own index and position. */
  lemma RopedPair<F, D>(ar: Arith<F, D>, v: seq<F>, heads: nat, hd: nat, pos: nat, h: nat, i: nat)
    requires |v| == heads * hd && h < heads && i < hd / 2
    ensures 0 <= h * hd + 2 * i && h * hd + 2 * i + 1 < |v|
    ensures var at := h * hd + 2 * i; var (c, s) := ar.turn(pos, i, hd); var r := Roped(ar, v, heads, hd, pos);
            && r[at] == ar.fsub(ar.fmul(v[at], c), ar.fmul(v[at + 1], s))
            && r[at + 1] == ar.fadd(ar.fmul(v[at], s), ar.fmul(v[at + 1], c))
  {
    HeadIndex(heads, hd, h, 2 * i);
    HeadIndex(heads, hd, h, 2 * i + 1);
  }

  /** The last coordinate of an odd head does not turn. */
  lemma RopedLast<F, D>(ar: Arith<F, D>, v: seq<F>, heads: nat, hd: nat, pos: nat, h: nat)
    requires |v| == heads * hd && h < heads && hd % 2 == 1
    ensures 0 <= h * hd + hd - 1 < |v| && Roped(ar, v, heads, hd, pos)[h * hd + hd - 1] == v[h * hd + hd - 1]
  {
    HeadIndex(heads, hd, h, hd - 1);
  }

  // ---------------------------------------------------------------- real arithmetic

  /** What the pass takes from the mathematics library: the inverse root of the norm, the cosine and sine of a
      position and pair, the scale of the scores, the exponential and the logistic function. */
  datatype Library = Library(
    invRms: (real, nat) -> real, turn: (nat, nat, nat) -> (real, real), scale: nat -> real, exp: real -> real,
    logistic: real -> real, low: real)

  /** The arithmetic of the pass without rounding. */
  function Reals(lib: Library): Arith<real, real> {
    Arith(
      0.0, (a, b) => a + b, (a, b) => a - b, (a, b) => a * b, (g, u) => g * lib.logistic(g) * u,
      0.0, lib.low, (a, b) => a + b, (a, b) => a * b, (a, b) => if a < b then b else a, a => a,
      lib.invRms, lib.turn, lib.scale, (a, b) => lib.exp(a - b), (e, z) => if z == 0.0 then 0.0 else e / z)
  }

  /** Every position turns a pair one fixed angle further. */
  ghost predicate Rotates(turn: (nat, nat, nat) -> (real, real), i: nat, hd: nat) {
    && turn(0, i, hd) == (1.0, 0.0)
    && (var (c, s) := turn(1, i, hd); c * c + s * s == 1.0)
    && forall pos: nat :: TurnsOn(turn, pos, i, hd)
  }

  ghost predicate TurnsOn(turn: (nat, nat, nat) -> (real, real), pos: nat, i: nat, hd: nat) {
    turn(pos + 1, i, hd) == Further(turn(pos, i, hd), turn(1, i, hd))
  }

  /** Inner and cross product of two pairs; of two turns, cosine and sine of the angle between them. */
  function Along(a: (real, real), b: (real, real)): real {
    a.0 * b.0 + a.1 * b.1
  }

  function Across(a: (real, real), b: (real, real)): real {
    a.1 * b.0 - a.0 * b.1
  }

  /** `a` turned further by `t`. */
  function Further(a: (real, real), t: (real, real)): (real, real) {
    (a.0 * t.0 - a.1 * t.1, a.0 * t.1 + a.1 * t.0)
  }

  lemma TurnExpanded(c: real, s: real, x: real, y: real, p: real, q: real)
    requires c * c + s * s == 1.0
    ensures (p * c - q * s) * (x * c - y * s) + (p * s + q * c) * (x * s + y * c) == p * x + q * y
    ensures (p * s + q * c) * (x * c - y * s) - (p * c - q * s) * (x * s + y * c) == q * x - p * y
  {
    assert (p * c - q * s) * (x * c - y * s) + (p * s + q * c) * (x * s + y * c) == (p * x + q * y) * (c * c + s * s);
    assert (p * s + q * c) * (x * c - y * s) - (p * c - q * s) * (x * s + y * c) == (q * x - p * y) * (c * c + s * s);
  }

  /** Turning both by one angle keeps the angle between them. */
  lemma TurnTogether(p: (real, real), x: (real, real), t: (real, real))
    requires t.0 * t.0 + t.1 * t.1 == 1.0
    ensures Along(Further(p, t), Further(x, t)) == Along(p, x) && Across(Further(p, t), Further(x, t)) == Across(p, x)
  {
    TurnExpanded(t.0, t.1, x.0, x.1, p.0, p.1);
  }

  lemma NotTurned(p: (real, real))
    ensures Along(p, (1.0, 0.0)) == p.0 && Across(p, (1.0, 0.0)) == p.1
  {
  }

  /** Moving both positions keeps the angle between them. */
  lemma {:induction false} PairMoves(turn: (nat, nat, nat) -> (real, real), i: nat, hd: nat, p: nat, r: nat)
    requires Rotates(turn, i, hd) && r <= p
    ensures Along(turn(p, i, hd), turn(r, i, hd)) == turn(p - r, i, hd).0
    ensures Across(turn(p, i, hd), turn(r, i, hd)) == turn(p - r, i, hd).1
    decreases r
  {
    hide Along, Across, Further;
    NotTurned(turn(p, i, hd));
    if r > 0 {
      PairMoves(turn, i, hd, p - 1, r - 1);
      assert TurnsOn(turn, p - 1, i, hd) && TurnsOn(turn, r - 1, i, hd);
      TurnTogether(turn(p - 1, i, hd), turn(r - 1, i, hd), turn(1, i, hd));
    }
  }

  lemma ProductExpanded(a: real, b: real, d: real, w: real, c: real, s: real, x: real, y: real)
    ensures (a * c - b * s) * (d * x - w * y) + (a * s + b * c) * (d * y + w * x) ==
            (a * d + b * w) * (c * x + s * y) + (a * w - b * d) * (s * x - c * y)
  {
  }

  /** Two pairs turned by two angles have the product of the first, turned by the difference, with the second left
      alone. */
  lemma TurnedProduct(a: (real, real), b: (real, real), p: (real, real), r: (real, real), d: (real, real))
    requires d == (Along(p, r), Across(p, r))
    ensures Along(Further(a, p), Further(b, r)) == Along(Further(a, d), b)
  {
    ProductExpanded(a.0, a.1, b.0, b.1, p.0, p.1, r.0, r.1);
    ProductExpanded(a.0, a.1, b.0, b.1, p.0 * r.0 + p.1 * r.1, p.1 * r.0 - p.0 * r.1, 1.0, 0.0);
  }

  function PairAt(v: seq<real>, at: nat): (real, real)
    requires at + 1 < |v|
  {
    (v[at], v[at + 1])
  }

  lemma RealPair(lib: Library, v: seq<real>, heads: nat, hd: nat, pos: nat, h: nat, i: nat)
    requires |v| == heads * hd && h < heads && i < hd / 2
    ensures 0 <= h * hd + 2 * i && h * hd + 2 * i + 1 < |v|
    ensures TurnedAt(Roped(Reals(lib), v, heads, hd, pos), v, h * hd + 2 * i, lib.turn(pos, i, hd))
  {
    hide Roped;
    RopedPair(Reals(lib), v, heads, hd, pos, h, i);
    var r, at, t := Roped(Reals(lib), v, heads, hd, pos), h * hd + 2 * i, lib.turn(pos, i, hd);
    assert r[at] == v[at] * t.0 - v[at + 1] * t.1;
    assert r[at + 1] == v[at] * t.1 + v[at + 1] * t.0;
    IsFurther(v[at], v[at + 1], r[at], r[at + 1], t);
  }

  lemma IsFurther(a: real, b: real, x: real, y: real, t: (real, real))
    requires x == a * t.0 - b * t.1 && y == a * t.1 + b * t.0
    ensures (x, y) == Further((a, b), t)
  {
    var f := Further((a, b), t);
    assert f.0 == x && f.1 == y;
    assert f == (f.0, f.1);
  }

  predicate SamePair(q: seq<real>, qAt: nat, k: seq<real>, kAt: nat, u: seq<real>, w: seq<real>, i: nat) {
    && qAt + 2 * i + 1 < |q| == |u| && kAt + 2 * i + 1 < |k| == |w|
    && var x, y := qAt + 2 * i, kAt + 2 * i;
       Along(PairAt(q, x), PairAt(k, y)) == Along(PairAt(u, x), PairAt(w, y))
  }

  /** Coordinates `at` and `at + 1` of `r` are those of `v` turned. */
  predicate TurnedAt(r: seq<real>, v: seq<real>, at: nat, turn: (real, real)) {
    at + 1 < |r| == |v| && PairAt(r, at) == Further(PairAt(v, at), turn)
  }

  lemma PairsAgree(q: seq<real>, qAt: nat, k: seq<real>, kAt: nat, qp: seq<real>, kr: seq<real>, qd: seq<real>, i: nat,
                   p: (real, real), r: (real, real), d: (real, real))
    requires TurnedAt(qp, q, qAt + 2 * i, p) && TurnedAt(kr, k, kAt + 2 * i, r) && TurnedAt(qd, q, qAt + 2 * i, d)
    requires d == (Along(p, r), Across(p, r))
    ensures SamePair(qp, qAt, kr, kAt, qd, k, i)
  {
    hide Along, Across, Further, PairAt;
    TurnedProduct(PairAt(q, qAt + 2 * i), PairAt(k, kAt + 2 * i), p, r, d);
  }

  /** One pair of the scores of two rotated heads. */
  lemma PairScore(lib: Library, q: seq<real>, qHeads: nat, h: nat, k: seq<real>, kHeads: nat, g: nat, hd: nat, i: nat,
                  p: nat, r: nat)
    requires |q| == qHeads * hd && h < qHeads && |k| == kHeads * hd && g < kHeads && i < hd / 2 && r <= p
    requires Rotates(lib.turn, i, hd)
    ensures 0 <= h * hd + 2 * i && h * hd + 2 * i + 1 < |q| && 0 <= g * hd + 2 * i && g * hd + 2 * i + 1 < |k|
    ensures 0 <= h * hd && 0 <= g * hd
    ensures var ar := Reals(lib);
            var qp, kr, qd := Roped(ar, q, qHeads, hd, p), Roped(ar, k, kHeads, hd, r), Roped(ar, q, qHeads, hd, p - r);
            SamePair(qp, h * hd, kr, g * hd, qd, k, i)
  {
    hide Roped, Rotates, Reals, SamePair, TurnedAt, Along, Across;
    var ar := Reals(lib);
    RealPair(lib, q, qHeads, hd, p, h, i);
    RealPair(lib, k, kHeads, hd, r, g, i);
    RealPair(lib, q, qHeads, hd, p - r, h, i);
    MulLe(0, h, hd);
    MulLe(0, g, hd);
    PairMoves(lib.turn, i, hd, p, r);
    var qp, kr, qd := Roped(ar, q, qHeads, hd, p), Roped(ar, k, kHeads, hd, r), Roped(ar, q, qHeads, hd, p - r);
    PairsAgree(q, h * hd, k, g * hd, qp, kr, qd, i, lib.turn(p, i, hd), lib.turn(r, i, hd), lib.turn(p - r, i, hd));
  }

  lemma {:induction false} ScorePairs(lib: Library, q: seq<real>, qAt: nat, k: seq<real>, kAt: nat, u: seq<real>,
                                      w: seq<real>, n: nat)
    requires qAt + 2 * n <= |q| == |u| && kAt + 2 * n <= |k| == |w|
    requires forall i: nat | i < n :: SamePair(q, qAt, k, kAt, u, w, i)
    ensures Score(Reals(lib), q, qAt, k, kAt, 2 * n) == Score(Reals(lib), u, qAt, w, kAt, 2 * n)
    decreases n
  {
    hide Along, PairAt, Score, Reals;
    NoScore(lib, q, qAt, k, kAt);
    NoScore(lib, u, qAt, w, kAt);
    if n > 0 {
      var at := 2 * (n - 1);
      assert SamePair(q, qAt, k, kAt, u, w, n - 1);
      ScorePairs(lib, q, qAt, k, kAt, u, w, n - 1);
      ScoreTwo(lib, q, qAt, k, kAt, at);
      ScoreTwo(lib, u, qAt, w, kAt, at);
    }
  }

  lemma NoScore(lib: Library, q: seq<real>, qAt: nat, k: seq<real>, kAt: nat)
    requires qAt <= |q| && kAt <= |k|
    ensures Score(Reals(lib), q, qAt, k, kAt, 0) == 0.0
  {
  }

  lemma ScoreTwo(lib: Library, q: seq<real>, qAt: nat, k: seq<real>, kAt: nat, n: nat)
    requires qAt + n + 2 <= |q| && kAt + n + 2 <= |k|
    ensures Score(Reals(lib), q, qAt, k, kAt, n + 2) ==
            Score(Reals(lib), q, qAt, k, kAt, n) + Along(PairAt(q, qAt + n), PairAt(k, kAt + n))
  {
    LastScore(lib, q, qAt, k, kAt, n + 2);
    LastScore(lib, q, qAt, k, kAt, n + 1);
  }

  /** Rotary embedding: the score of a query at position `p` and a key at position `r` is that of the query turned by
      the difference alone and the key not turned at all. */
  lemma RelativePosition(lib: Library, q: seq<real>, qHeads: nat, h: nat, k: seq<real>, kHeads: nat, g: nat, hd: nat,
                         p: nat, r: nat)
    requires |q| == qHeads * hd && h < qHeads && |k| == kHeads * hd && g < kHeads && r <= p
    requires forall i: nat | i < hd / 2 :: Rotates(lib.turn, i, hd)
    ensures 0 <= h * hd && h * hd + hd <= |q| && 0 <= g * hd && g * hd + hd <= |k|
    ensures var ar := Reals(lib);
            Score(ar, Roped(ar, q, qHeads, hd, p), h * hd, Roped(ar, k, kHeads, hd, r), g * hd, hd) ==
            Score(ar, Roped(ar, q, qHeads, hd, p - r), h * hd, k, g * hd, hd)
  {
    hide Roped, Rotates, Score, Times, Reals;
    var ar := Reals(lib);
    var qp, kr, qd := Roped(ar, q, qHeads, hd, p), Roped(ar, k, kHeads, hd, r), Roped(ar, q, qHeads, hd, p - r);
    RowEnd(qHeads, hd, h);
    RowEnd(kHeads, hd, g);
    MulLe(0, h, hd);
    MulLe(0, g, hd);
    var qAt, kAt := h * hd, g * hd;
    forall i: nat | i < hd / 2
      ensures SamePair(qp, qAt, kr, kAt, qd, k, i)
    {
      PairScore(lib, q, qHeads, h, k, kHeads, g, hd, i, p, r);
    }
    ScorePairs(lib, qp, qAt, kr, kAt, qd, k, hd / 2);
    if hd % 2 == 1 {
      RopedLast(ar, q, qHeads, hd, p, h);
      RopedLast(ar, k, kHeads, hd, r, g);
      RopedLast(ar, q, qHeads, hd, p - r, h);
      LastScore(lib, qp, qAt, kr, kAt, hd);
      LastScore(lib, qd, qAt, k, kAt, hd);
    }
  }

  lemma LastScore(lib: Library, q: seq<real>, qAt: nat, k: seq<real>, kAt: nat, n: nat)
    requires n > 0 && qAt + n <= |q| && kAt + n <= |k|
    ensures Score(Reals(lib), q, qAt, k, kAt, n) ==
            Score(Reals(lib), q, qAt, k, kAt, n - 1) + Times(q[qAt + n - 1], k[kAt + n - 1])
  {
  }
}
