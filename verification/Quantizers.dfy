/** The two four-bit weight quantizers, over the reals: error bounds, clamping, and how the nibbles are packed. */
module Quantizers {
  import opened Numbers
  import PW = PackedWords

  // ---------------------------------------------------------------- rounding and real arithmetic

  function Abs(x: real): real {
    if x < 0.0 then -x else x
  }

  /** `lrintf` in the default mode: to nearest, ties to even. */
  function Rint(x: real): (r: int)
    ensures -0.5 <= x - r as real <= 0.5
    ensures x - r as real == 0.5 || x - r as real == -0.5 ==> r % 2 == 0
  {
    var f := x.Floor;
    var d := x - f as real;
    if d < 0.5 then f else if d > 0.5 then f + 1 else if f % 2 == 0 then f else f + 1
  }

  lemma ScaleLe(x: real, y: real, s: real)
    requires s >= 0.0 && x <= y
    ensures x * s <= y * s
  {
  }

  lemma ScaleLt(x: real, y: real, s: real)
    requires s > 0.0 && x < y
    ensures x * s < y * s
  {
  }

  /** A quotient times its divisor. */
  lemma Quotient(a: real, s: real)
    requires s != 0.0
    ensures a / s * s == a
  {
  }

  /** What is lost when a weight becomes code `v` of step `s`. */
  function Loss(x: real, v: int, s: real): real {
    Abs(x - v as real * s)
  }

  lemma Difference(x: real, v: real, s: real)
    requires s != 0.0
    ensures (x / s - v) * s == x - v * s
  {
    Quotient(x, s);
  }

  /** The loss is the error in steps times the step. */
  lemma LossInSteps(x: real, v: int, s: real)
    requires s != 0.0
    ensures Loss(x, v, s) == Times(Abs(x / s - v as real), Abs(s))
  {
    Difference(x, v as real, s);
    AbsProduct(x / s - v as real, s);
  }

  lemma TimesBounds(d: real, s: real)
    requires s > 0.0
    ensures d <= 1.0 ==> Times(d, s) <= s
    ensures Times(d, s) <= s / 2.0 <==> d <= 0.5
  {
    hide Times;
    TimesLt(1.0, d, s);
    TimesLt(d, 1.0, s);
    TimesLt(0.5, d, s);
    TimesLt(d, 0.5, s);
    TimesConst(s);
  }

  lemma TimesLt(a: real, b: real, s: real)
    requires s > 0.0
    ensures a < b ==> Times(a, s) < Times(b, s)
    ensures a == b ==> Times(a, s) == Times(b, s)
  {
    if a < b { ScaleLt(a, b, s); }
  }

  lemma TimesConst(s: real)
    ensures Times(1.0, s) == s && Times(0.5, s) == s / 2.0
  {
  }

  lemma AbsProduct(x: real, s: real)
    ensures Abs(x * s) == Times(Abs(x), Abs(s))
  {
    if x >= 0.0 && s >= 0.0 { ScaleLe(0.0, x, s); }
    if x >= 0.0 && s < 0.0 { ScaleLe(0.0, x, -s); }
    if x < 0.0 && s >= 0.0 { ScaleLe(x, 0.0, s); }
    if x < 0.0 && s < 0.0 { ScaleLe(x, 0.0, -s); }
    assert (-x) * s == -(x * s) && x * (-s) == -(x * s) && (-x) * (-s) == x * s;
  }

  // ---------------------------------------------------------------- amax / 7

  /** Largest magnitude of the first `n` weights. */
  function Amax(src: seq<real>, n: nat): (m: real)
    requires n <= |src|
    ensures m >= 0.0
    ensures forall i | 0 <= i < n :: Abs(src[i]) <= m
    ensures m > 0.0 ==> exists i | 0 <= i < n :: Abs(src[i]) == m
  {
    if n == 0 then 0.0
    else
      var before, here := Amax(src, n - 1), Abs(src[n - 1]);
      if here > before then here else before
  }

  /** The step of a group; a group of zeros gets a tiny one instead of none. */
  function Step7(amax: real): (s: real)
    requires amax >= 0.0
    ensures s > 0.0
  {
    if amax / 7.0 == 0.0 then 0.000000000001 else amax / 7.0
  }

  function Clamp(v: int, lo: int, hi: int): int {
    if v > hi then hi else if v < lo then lo else v
  }

  /** The code of one weight. */
  function Code7(x: real, s: real): (v: int)
    requires s > 0.0
    ensures -8 <= v <= 7
  {
    Clamp(Rint(x / s), -8, 7)
  }

  lemma RatioWithin7(x: real, amax: real)
    requires amax >= 0.0 && Abs(x) <= amax
    ensures -7.0 <= x / Step7(amax) <= 7.0
  {
    var s := Step7(amax);
    var u := x / s;
    Quotient(x, s);
    if u > 7.0 { ScaleLt(7.0, u, s); }
    if u < -7.0 { ScaleLt(u, -7.0, s); }
  }

  /** The clamp is never needed, and the reconstruction errs by at most half a step. */
  lemma Amax7Bound(x: real, amax: real)
    requires amax >= 0.0 && Abs(x) <= amax
    ensures var s := Step7(amax);
            && Code7(x, s) == Rint(x / s) && -7 <= Code7(x, s) <= 7
            && Loss(x, Code7(x, s), s) <= s / 2.0
  {
    RatioWithin7(x, amax);
    StepsWithin7(x, Step7(amax));
  }

  lemma AbsPositive(s: real)
    ensures s != 0.0 ==> Abs(s) > 0.0
    ensures s > 0.0 ==> Abs(s) == s
  {
  }

  lemma StepsWithin7(x: real, s: real)
    requires s > 0.0 && -7.0 <= x / s <= 7.0
    ensures Code7(x, s) == Rint(x / s) && -7 <= Code7(x, s) <= 7
    ensures Loss(x, Code7(x, s), s) <= s / 2.0
  {
    hide Rint, Abs, Loss, Times;
    AbsPositive(s);
    NearWithin7(x / s);
    LossInSteps(x, Rint(x / s), s);
    TimesBounds(Abs(x / s - Rint(x / s) as real), s);
  }

  lemma NearWithin7(u: real)
    requires -7.0 <= u <= 7.0
    ensures -7 <= Rint(u) <= 7 && Abs(u - Rint(u) as real) <= 0.5
  {
  }

  lemma RintOdd(x: real)
    ensures Rint(-x) == -Rint(x)
  {
    hide Rint;
    var r, t := Rint(x), Rint(-x);
    assert (r + t) as real == r as real + t as real;
    assert -1 <= r + t <= 1;
  }

  lemma Negated(x: real, s: real)
    requires s != 0.0
    ensures -x / s == -(x / s) && Abs(-x) == Abs(x)
  {
  }

  /** Codes are symmetric: the negative of a weight gets the negative code, ties included. */
  lemma CodesSymmetric(x: real, amax: real)
    requires amax >= 0.0 && Abs(x) <= amax
    ensures Code7(-x, Step7(amax)) == -Code7(x, Step7(amax))
  {
    hide Rint, Step7, Code7, Abs, Loss;
    var s := Step7(amax);
    Negated(x, s);
    Amax7Bound(x, amax);
    Amax7Bound(-x, amax);
    RintOdd(x / s);
  }

  /** A group of zeros is exact. */
  lemma ZeroGroup(x: real)
    requires Abs(x) <= 0.0
    ensures Code7(x, Step7(0.0)) as real * Step7(0.0) == x
  {
    assert x == 0.0;
    assert x / Step7(0.0) == 0.0;
  }

  /** The biased nibble of a code. */
  function Biased(v: int): (n: bv8)
    requires -8 <= v <= 7
    ensures n < 16 && n as int == v + 8
  {
    (v + 8) as bv8
  }

  function Joined(lo: bv8, hi: bv8): bv8 {
    lo | (hi << 4)
  }

  /** Each half of a byte reads back as it was OR-ed in. */
  lemma HalvesBack(lo: bv8, hi: bv8)
    requires lo < 16 && hi < 16
    ensures Joined(lo, hi) & 0xF == lo && Joined(lo, hi) >> 4 == hi
    ensures 0 | lo == Joined(lo, 0) && Joined(lo, 0) | (hi << 4) == Joined(lo, hi)
  {
  }

  function GroupStep(src: seq<real>): (s: real)
    requires |src| == 32
    ensures s > 0.0
  {
    Step7(Amax(src, 32))
  }

  function Nibble(src: seq<real>, i: nat): (n: bv8)
    requires |src| == 32 && i < 32
    ensures n < 16
  {
    Biased(Code7(src[i], GroupStep(src)))
  }

  function GroupByte(src: seq<real>, c: nat): bv8
    requires |src| == 32 && c < 16
  {
    Joined(Nibble(src, 2 * c), Nibble(src, 2 * c + 1))
  }

  /** What the kernel reads at position `i` of a group is the code the quantizer chose. */
  lemma KernelReadsCode(src: seq<real>, i: nat)
    requires |src| == 32 && i < 32
    ensures PW.Weight(GroupByte(src, i / 2), i) == Code7(src[i], GroupStep(src))
  {
    hide Biased, Joined, GroupStep, Code7;
    HalvesBack(Nibble(src, 2 * (i / 2)), Nibble(src, 2 * (i / 2) + 1));
    assert i == 2 * (i / 2) + i % 2;
  }

  /** One group, OR-ed nibble by nibble into zeroed bytes. */
  method QuantizeGroup(src: seq<real>, q: array<bv8>, base: nat) returns (sc: real)
    requires |src| == 32 && base + 16 <= q.Length
    requires forall p | base <= p < base + 16 :: q[p] == 0
    modifies q
    ensures sc == GroupStep(src)
    ensures forall p: nat | base <= p < base + 16 :: q[p] == GroupByte(src, p - base)
    ensures forall p: nat | p < q.Length && !(base <= p < base + 16) :: q[p] == old(q[p])
  {
    hide Biased, Joined, Code7, PW.Weight;
    var amax := 0.0;
    for i := 0 to 32
      invariant amax == Amax(src, i)
    {
      var here := Abs(src[i]);
      if here > amax { amax := here; }
    }
    sc := amax / 7.0;
    if sc == 0.0 { sc := 0.000000000001; }
    for i := 0 to 32
      invariant forall p: nat | base <= p < base + 16 ::
                  q[p] == if p < base + i / 2 then GroupByte(src, p - base)
                          else if p == base + i / 2 && i % 2 == 1 then Joined(Nibble(src, i - 1), 0) else 0
      invariant forall p: nat | p < q.Length && !(base <= p < base + 16) :: q[p] == old(q[p])
    {
      var v := Clamp(Rint(src[i] / sc), -8, 7);
      CodeIs(src[i], sc);
      var nibble := Biased(v);
      var at := base + i / 2;
      HalvesBack(nibble, 0);
      if i % 2 == 0 {
        q[at] := q[at] | nibble;
      } else {
        HalvesBack(Nibble(src, i - 1), nibble);
        q[at] := q[at] | (nibble << 4);
      }
    }
  }

  lemma CodeIs(x: real, s: real)
    requires s > 0.0
    ensures Clamp(Rint(x / s), -8, 7) == Code7(x, s)
  {
  }

  /** Group `g` of row `r` of an `m` by `k` matrix. */
  function GroupOf(w: seq<real>, m: nat, k: nat, r: nat, g: nat): (src: seq<real>)
    requires |w| == m * k && r < m && g < k / 32
    ensures |src| == 32
  {
    GroupRoom(m, k, r, g);
    w[r * k + g * 32..r * k + g * 32 + 32]
  }

  lemma GroupRoom(m: nat, k: nat, r: nat, g: nat)
    requires r < m && g < k / 32
    ensures 0 <= r * k && r * k + g * 32 + 32 <= m * k
    ensures 0 <= r * (k / 2) && r * (k / 2) + g * 16 + 16 <= m * (k / 2)
    ensures 0 <= r * (k / 32) && r * (k / 32) + g < m * (k / 32)
  {
    GroupInRow(k, g);
    BlockFits(r, m, k, g * 32 + 32);
    BlockFits(r, m, k / 2, g * 16 + 16);
    BlockFits(r, m, k / 32, g + 1);
  }

  lemma GroupInRow(k: nat, g: nat)
    requires g < k / 32
    ensures g * 32 + 32 <= k && g * 16 + 16 <= k / 2
  {
  }

  /** The bytes of group `g` of row `r`, and nothing else, hold its codes. */
  predicate GroupStored(w: seq<real>, m: nat, k: nat, q: seq<bv8>, scales: seq<real>, r: nat, g: nat)
    requires |w| == m * k && |q| == m * (k / 2) && r < m && g < k / 32
  {
    GroupRoom(m, k, r, g);
    var src, at := GroupOf(w, m, k, r, g), r * (k / 2) + g * 16;
    && r * (k / 32) + g < |scales| && scales[r * (k / 32) + g] == GroupStep(src)
    && forall p: nat | at <= p < at + 16 :: q[p] == GroupByte(src, p - at)
  }

  /** `quantize_rows_int4`. */
  method QuantizeRowsInt4(w: seq<real>, m: nat, k: nat) returns (q: array<bv8>, scales: seq<real>)
    requires |w| == m * k
    ensures q.Length == m * (k / 2) && |scales| == m * (k / 32)
    ensures forall r: nat, g: nat | r < m && g < k / 32 :: GroupStored(w, m, k, q[..], scales, r, g)
  {
    hide GroupStored;
    q := new bv8[m * (k / 2)](_ => 0);
    scales := [];
    for r := 0 to m
      invariant |scales| == r * (k / 32)
      invariant forall p: nat | r * (k / 2) <= p < q.Length :: q[p] == 0
      invariant forall s: nat, g: nat | s < r && g < k / 32 :: GroupStored(w, m, k, q[..], scales, s, g)
    {
      NextRow(m, k, r);
      for g := 0 to k / 32
        invariant |scales| == r * (k / 32) + g
        invariant forall p: nat | r * (k / 2) + g * 16 <= p < q.Length :: q[p] == 0
        invariant forall s: nat, h: nat | s < m && h < k / 32 && (s < r || (s == r && h < g)) ::
                    GroupStored(w, m, k, q[..], scales, s, h)
      {
        GroupRoom(m, k, r, g);
        ghost var before, held := q[..], scales;
        var sc := QuantizeGroup(GroupOf(w, m, k, r, g), q, r * (k / 2) + g * 16);
        scales := scales + [sc];
        StoredHere(w, m, k, q[..], scales, r, g);
        forall s: nat, h: nat | s < m && h < k / 32 && (s < r || (s == r && h < g))
          ensures GroupStored(w, m, k, q[..], scales, s, h)
        {
          StoredStays(w, m, k, before, q[..], held, scales, r, g, s, h);
        }
      }
    }
  }

  /** End to end: the weight the kernel reads for any position of a stored group, times the stored scale, is within
      half a step of the original. */
  lemma StoredWithinHalfStep(w: seq<real>, m: nat, k: nat, q: seq<bv8>, scales: seq<real>, r: nat, g: nat, i: nat)
    requires |w| == m * k && |q| == m * (k / 2) && r < m && g < k / 32 && i < 32
    requires GroupStored(w, m, k, q, scales, r, g)
    ensures 0 <= r * k + g * 32 + i < |w| && 0 <= r * (k / 2) + (g * 32 + i) / 2 < |q|
    ensures 0 <= r * (k / 32) + g < |scales|
    ensures var s := scales[r * (k / 32) + g];
            s > 0.0
            && Loss(w[r * k + g * 32 + i], PW.Weight(q[r * (k / 2) + (g * 32 + i) / 2], i), s) <= s / 2.0
  {
    hide Loss, GroupByte, Code7, Amax, PW.Weight, GroupStep;
    GroupRoom(m, k, r, g);
    var src := GroupOf(w, m, k, r, g);
    assert (g * 32 + i) / 2 == g * 16 + i / 2;
    assert src[i] == w[r * k + g * 32 + i];
    KernelReadsCode(src, i);
    GroupWithinHalfStep(src, i);
  }

  lemma GroupWithinHalfStep(src: seq<real>, i: nat)
    requires |src| == 32 && i < 32
    ensures GroupStep(src) > 0.0 && Loss(src[i], Code7(src[i], GroupStep(src)), GroupStep(src)) <= GroupStep(src) / 2.0
  {
    hide Loss, Code7;
    Amax7Bound(src[i], Amax(src, 32));
  }

  lemma NextRow(m: nat, k: nat, r: nat)
    requires r < m
    ensures (r + 1) * (k / 32) == r * (k / 32) + k / 32 && (r + 1) * (k / 2) == r * (k / 2) + k / 2
    ensures k / 32 * 16 <= k / 2
  {
  }

  lemma StoredHere(w: seq<real>, m: nat, k: nat, q: seq<bv8>, scales: seq<real>, r: nat, g: nat)
    requires |w| == m * k && |q| == m * (k / 2) && r < m && g < k / 32
    requires |scales| == r * (k / 32) + g + 1 && scales[r * (k / 32) + g] == GroupStep(GroupOf(w, m, k, r, g))
    requires r * (k / 2) + g * 16 + 16 <= |q|
    requires forall p: nat | r * (k / 2) + g * 16 <= p < r * (k / 2) + g * 16 + 16 ::
               q[p] == GroupByte(GroupOf(w, m, k, r, g), p - (r * (k / 2) + g * 16))
    ensures GroupStored(w, m, k, q, scales, r, g)
  {
    hide GroupOf, GroupByte, GroupStep;
  }

  /** Later groups write behind earlier ones. */
  lemma StoredStays(w: seq<real>, m: nat, k: nat, before: seq<bv8>, q: seq<bv8>, held: seq<real>, scales: seq<real>,
                    r: nat, g: nat, s: nat, h: nat)
    requires |w| == m * k && |q| == |before| == m * (k / 2) && r < m && g < k / 32 && s < m && h < k / 32
    requires s < r || (s == r && h < g)
    requires held <= scales && GroupStored(w, m, k, before, held, s, h)
    requires var at := r * (k / 2) + g * 16; forall p: nat | p < |q| && !(at <= p < at + 16) :: q[p] == before[p]
    ensures GroupStored(w, m, k, q, scales, s, h)
  {
    hide GroupOf, GroupByte, GroupStep;
    GroupRoom(m, k, s, h);
    Earlier(k, r, g, s, h);
  }

  lemma Earlier(k: nat, r: nat, g: nat, s: nat, h: nat)
    requires h < k / 32 && (s < r || (s == r && h < g))
    ensures s * (k / 2) + h * 16 + 16 <= r * (k / 2) + g * 16
  {
    MulLe(s + 1, r, k / 2);
  }

  // ---------------------------------------------------------------- extreme / -8

  /** `argmax` of the magnitudes; which of several maxima is taken is left open. */
  predicate IsArgmax(w: seq<real>, idx: nat) {
    idx < |w| && forall i | 0 <= i < |w| :: Abs(w[i]) <= Abs(w[idx])
  }

  function Scale8(w: seq<real>, idx: nat): real
    requires IsArgmax(w, idx)
  {
    w[idx] / -8.0
  }

  function Inverse(scale: real): real {
    if scale != 0.0 then 1.0 / scale else 0.0
  }

  /** The stored code, 0 to 15. */
  function Code8(x: real, scale: real): (q: int)
    ensures 0 <= q <= 15
  {
    Clamp((x * Inverse(scale) + 8.5).Floor, 0, 15)
  }

  function Dequantized(q: int, scale: real): real {
    (q - 8) as real * scale
  }

  lemma InverseIsQuotient(x: real, scale: real)
    requires scale != 0.0
    ensures x * Inverse(scale) == x / scale
  {
  }

  lemma RatioWithin8(w: seq<real>, idx: nat, i: nat)
    requires IsArgmax(w, idx) && i < |w| && Scale8(w, idx) != 0.0
    ensures Abs(w[i] / Scale8(w, idx)) <= 8.0
  {
    var s, e := Scale8(w, idx), -8.0;
    assert w[idx] == e * s;
    RatioBelow(w[i], e, s);
  }

  lemma AbsQuotient(x: real, s: real)
    requires s != 0.0
    ensures Abs(x) == Times(Abs(x / s), Abs(s))
  {
    hide Abs, Times;
    var u := x / s;
    Quotient(x, s);
    assert x == u * s;
    AbsProduct(u, s);
  }

  lemma RatioBelow(x: real, e: real, s: real)
    requires s != 0.0 && Abs(x) <= Abs(e * s)
    ensures Abs(x / s) <= Abs(e)
  {
    hide Abs, Times;
    AbsQuotient(x, s);
    AbsProduct(e, s);
    AbsPositive(s);
    TimesLt(Abs(e), Abs(x / s), Abs(s));
  }

  lemma RoundedRatio(u: real)
    requires -8.0 <= u <= 8.0
    ensures var q := Clamp((u + 8.5).Floor, 0, 15);
            && Abs(u - (q - 8) as real) <= 1.0
            && (Abs(u - (q - 8) as real) <= 0.5 <==> u <= 7.5)
  {
  }

  /** The error is at most one step, and at most half a step exactly where the weight is at most 7.5 steps. */
  lemma Extreme8Bound(w: seq<real>, idx: nat, i: nat)
    requires IsArgmax(w, idx) && i < |w| && Scale8(w, idx) != 0.0
    ensures var s := Scale8(w, idx); var loss := Loss(w[i], Code8(w[i], s) - 8, s);
            loss <= Abs(s) && (loss <= Abs(s) / 2.0 <==> w[i] / s <= 7.5)
  {
    RatioWithin8(w, idx, i);
    StepsWithin8(w[i], Scale8(w, idx));
  }

  lemma WithinAbs(u: real)
    ensures Abs(u) <= 8.0 ==> -8.0 <= u <= 8.0
  {
  }

  lemma StepsWithin8(x: real, s: real)
    requires s != 0.0 && Abs(x / s) <= 8.0
    ensures var loss := Loss(x, Code8(x, s) - 8, s);
            loss <= Abs(s) && (loss <= Abs(s) / 2.0 <==> x / s <= 7.5)
  {
    hide Code8, Clamp, Abs, Loss, Times;
    var q := Code8(x, s);
    CodeOfRatio(x, s);
    WithinAbs(x / s);
    RoundedRatio(x / s);
    AbsPositive(s);
    LossInSteps(x, q - 8, s);
    TimesBounds(Abs(x / s - (q - 8) as real), Abs(s));
  }

  /** Half a step does not always suffice: beside a largest value of -8 steps, one of +8 steps is off by one. */
  lemma HalfStepFails()
    ensures var w := [-8.0, 8.0] + seq(30, _ => 0.0);
            && IsArgmax(w, 0) && Scale8(w, 0) == 1.0
            && Loss(w[1], Code8(w[1], 1.0) - 8, 1.0) == 1.0
  {
  }

  lemma CodeOfRatio(x: real, s: real)
    requires s != 0.0
    ensures Code8(x, s) == Clamp((x / s + 8.5).Floor, 0, 15)
  {
    InverseIsQuotient(x, s);
  }

  /** Halfway between two steps the code is the upper one. */
  lemma TiesGoUp(x: real, c: int, s: real)
    requires s != 0.0 && x / s == c as real + 0.5 && -8 <= c <= 6
    ensures Code8(x, s) == c + 9
  {
    CodeOfRatio(x, s);
    assert (c as real + 0.5 + 8.5).Floor == c + 9;
  }

  /** The extreme value lands exactly on code 0, and a group of zeros on code 8 with scale zero. */
  lemma ExtremeIsExact(w: seq<real>, idx: nat)
    requires IsArgmax(w, idx)
    ensures Dequantized(Code8(w[idx], Scale8(w, idx)), Scale8(w, idx)) == w[idx]
    ensures Scale8(w, idx) != 0.0 ==> Code8(w[idx], Scale8(w, idx)) == 0
    ensures Scale8(w, idx) == 0.0 ==> forall i | 0 <= i < |w| :: Code8(w[i], 0.0) == 8 && w[i] == 0.0
  {
    hide Code8, Dequantized;
    var s, c := Scale8(w, idx), -8;
    EightTimes(w[idx], c, s);
    if s != 0.0 {
      GridCode(w[idx], c, s);
    } else {
      AllZero(w, idx);
      ZeroCode();
    }
  }

  lemma EightTimes(x: real, c: int, s: real)
    requires c == -8 && s == x / -8.0
    ensures x == c as real * s
  {
  }

  lemma AllZero(w: seq<real>, idx: nat)
    requires IsArgmax(w, idx) && Scale8(w, idx) == 0.0
    ensures forall i | 0 <= i < |w| :: w[i] == 0.0
  {
  }

  lemma RatioUnique(x: real, c: real, s: real)
    requires s != 0.0 && x == c * s
    ensures x / s == c
  {
    var u := x / s;
    Quotient(x, s);
    assert (u - c) * s == 0.0;
    NoZeroProduct(u - c, s);
  }

  lemma NoZeroProduct(d: real, s: real)
    requires s != 0.0 && d * s == 0.0
    ensures d == 0.0
  {
  }

  /** A group that is already integer codes times a step, code -8 among them. */
  ghost predicate OnGrid(w: seq<real>, codes: seq<int>, s: real) {
    && |w| == |codes| && -8 in codes
    && forall i | 0 <= i < |codes| :: -8 <= codes[i] <= 7 && w[i] == codes[i] as real * s
  }

  lemma AbsOf(w: real, c: real, s: real)
    requires w == c * s
    ensures Abs(w) == Times(Abs(c), Abs(s))
  {
    AbsProduct(c, s);
  }

  lemma GridSmaller(w: real, c: real, x: real, e: real, s: real)
    requires w == c * s && x == e * s && Abs(c) < Abs(e) && s != 0.0
    ensures Abs(w) < Abs(x)
  {
    hide Abs, Times;
    AbsPositive(s);
    AbsOf(w, c, s);
    AbsOf(x, e, s);
    TimesLt(Abs(c), Abs(e), Abs(s));
  }

  lemma EighthOf(w: real, c: int, s: real)
    requires c == -8 && w == c as real * s
    ensures w / -8.0 == s
  {
  }

  lemma CodeSmaller(c: int, e: int)
    requires e == -8 && e < c <= 7
    ensures Abs(c as real) < Abs(e as real)
  {
  }

  /** Among codes of one step, none is as large as -8. */
  lemma LargestCode(w: real, c: int, x: real, e: int, s: real)
    requires w == c as real * s && x == e as real * s && e == -8 && -8 <= c <= 7 && s != 0.0
    requires Abs(x) <= Abs(w)
    ensures c == -8
  {
    hide Abs;
    if c > -8 {
      CodeSmaller(c, e);
      GridSmaller(w, c as real, x, e as real, s);
    }
  }

  lemma GridExtreme(w: seq<real>, codes: seq<int>, s: real, idx: nat)
    requires OnGrid(w, codes, s) && IsArgmax(w, idx) && s != 0.0
    ensures codes[idx] == -8 && Scale8(w, idx) == s
  {
    hide Abs;
    var e :| 0 <= e < |codes| && codes[e] == -8;
    assert Abs(w[e]) <= Abs(w[idx]);
    LargestCode(w[idx], codes[idx], w[e], codes[e], s);
    EighthOf(w[idx], codes[idx], s);
  }

  lemma GridCode(x: real, c: int, s: real)
    requires x == c as real * s && s != 0.0 && -8 <= c <= 7
    ensures Code8(x, s) == c + 8 && Dequantized(c + 8, s) == x
  {
    hide Code8;
    CodeOfRatio(x, s);
    RatioUnique(x, c as real, s);
    FloorAt(c);
  }

  lemma FloorAt(c: int)
    ensures (c as real + 8.5).Floor == c + 8
  {
  }

  /** Such a group is reproduced exactly, with its own step and codes, whichever maximum `argmax` returns. */
  lemma GridIsExact(w: seq<real>, codes: seq<int>, s: real, idx: nat, i: nat)
    requires OnGrid(w, codes, s) && IsArgmax(w, idx) && i < |w|
    ensures Dequantized(Code8(w[i], Scale8(w, idx)), Scale8(w, idx)) == w[i]
    ensures s != 0.0 ==> Scale8(w, idx) == s && Code8(w[i], s) == codes[i] + 8
  {
    hide IsArgmax, Code8, Dequantized, Scale8;
    if s != 0.0 {
      GridExtreme(w, codes, s, idx);
      GridCode(w[i], codes[i], s);
    } else {
      ZeroGrid(w, codes, idx, i);
      ZeroCode();
    }
  }

  lemma ZeroCode()
    ensures Code8(0.0, 0.0) == 8 && Dequantized(8, 0.0) == 0.0
  {
  }

  lemma ZeroGrid(w: seq<real>, codes: seq<int>, idx: nat, i: nat)
    requires OnGrid(w, codes, 0.0) && IsArgmax(w, idx) && i < |w|
    ensures w[i] == 0.0 && Scale8(w, idx) == 0.0
  {
  }

  function Rebuilt(w: seq<real>, idx: nat): (r: seq<real>)
    requires IsArgmax(w, idx)
    ensures |r| == |w|
  {
    seq(|w|, i requires 0 <= i < |w| => Dequantized(Code8(w[i], Scale8(w, idx)), Scale8(w, idx)))
  }

  /** Quantizing is idempotent: a dequantized group quantizes to the same codes and scale again. */
  lemma Idempotent(w: seq<real>, idx: nat, again: nat, i: nat)
    requires IsArgmax(w, idx) && IsArgmax(Rebuilt(w, idx), again) && i < |w| && Scale8(w, idx) != 0.0
    ensures Scale8(Rebuilt(w, idx), again) == Scale8(w, idx)
    ensures Code8(Rebuilt(w, idx)[i], Scale8(Rebuilt(w, idx), again)) == Code8(w[i], Scale8(w, idx))
  {
    hide IsArgmax, Scale8, Code8;
    var s := Scale8(w, idx);
    var codes := seq(|w|, n requires 0 <= n < |w| => Code8(w[n], s) - 8);
    ExtremeIsExact(w, idx);
    ArgmaxInside(w, idx);
    assert codes[idx] == -8;
    GridIsExact(Rebuilt(w, idx), codes, s, again, i);
  }

  lemma ArgmaxInside(w: seq<real>, idx: nat)
    requires IsArgmax(w, idx)
    ensures idx < |w|
  {
  }

  // ---------------------------------------------------------------- packing a row

  function AsByte(q: int): (n: bv8)
    requires 0 <= q <= 15
    ensures n < 16 && n as int == q
  {
    q as bv8
  }

  /** `q[:, 0::2] | (q[:, 1::2] << 4)`. */
  function PackRow(codes: seq<int>): (b: seq<bv8>)
    requires forall i | 0 <= i < |codes| :: 0 <= codes[i] <= 15
    ensures |b| == |codes| / 2
  {
    seq(|codes| / 2, c requires 0 <= c < |codes| / 2 => Joined(AsByte(codes[2 * c]), AsByte(codes[2 * c + 1])))
  }

  /** The kernels read back every code of a row, recentred. */
  lemma PackedRowReads(codes: seq<int>, i: nat)
    requires |codes| % 2 == 0 && i < |codes| && forall j | 0 <= j < |codes| :: 0 <= codes[j] <= 15
    ensures i / 2 < |PackRow(codes)| && PW.Weight(PackRow(codes)[i / 2], i) == codes[i] - 8
  {
    hide AsByte, Joined;
    HalvesBack(AsByte(codes[2 * (i / 2)]), AsByte(codes[2 * (i / 2) + 1]));
    assert i == 2 * (i / 2) + i % 2;
  }
}
