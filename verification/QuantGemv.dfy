/** The W4A8 matrix-vector kernel: packed nibbles, byte dot products and a shuffle tree, against the sequential
    integer model. Integer parts are exact machine arithmetic; scales and partial sums are reals. */
module QuantGemv {
  import opened Numbers
  import opened PackedWords
  import opened QuantGroup

  // ---------------------------------------------------------------- sums over groups and lanes

  function Term(row: Row, groups: nat, g: nat): real
    requires RowOk(row, groups) && g < groups
  {
    GroupRoom(row, groups, g);
    PartSum(row, g, 32) as real * row.ws[g]
  }

  /** The sequential sum over the first `n` groups. */
  function RowDot(row: Row, groups: nat, n: nat): real
    requires RowOk(row, groups) && n <= groups
  {
    if n == 0 then 0.0 else RowDot(row, groups, n - 1) + Term(row, groups, n - 1)
  }

  /** What lane `lane` has summed once the groups before `n` are done: those congruent to it. */
  function LaneSum(row: Row, groups: nat, lane: nat, n: nat): real
    requires RowOk(row, groups) && n <= groups
  {
    if n == 0 then 0.0
    else LaneSum(row, groups, lane, n - 1) + (if (n - 1) % 32 == lane then Term(row, groups, n - 1) else 0.0)
  }

  function SumTo(v: seq<real>, k: nat): real
    requires k <= |v|
  {
    if k == 0 then 0.0 else SumTo(v, k - 1) + v[k - 1]
  }

  /** Groups that belong to other lanes change nothing. */
  lemma {:induction false} LaneSkips(row: Row, groups: nat, lane: nat, first: nat, last: nat)
    requires RowOk(row, groups) && first <= last <= groups && forall g | first <= g < last :: g % 32 != lane
    ensures LaneSum(row, groups, lane, last) == LaneSum(row, groups, lane, first)
    decreases last
  {
    hide RowOk, Term;
    if last > first { LaneSkips(row, groups, lane, first, last - 1); }
  }

  lemma {:induction false} SumAdded(v: seq<real>, w: seq<real>, at: nat, t: real, k: nat)
    requires |v| == |w| && at < |v| && k <= |v|
    requires w == v[at := v[at] + t]
    ensures SumTo(w, k) == SumTo(v, k) + (if at < k then t else 0.0)
    decreases k
  {
    if k > 0 { SumAdded(v, w, at, t, k - 1); }
  }

  function Lanes(row: Row, groups: nat, n: nat): (v: seq<real>)
    requires RowOk(row, groups) && n <= groups
    ensures |v| == 32
  {
    seq(32, lane requires 0 <= lane < 32 => LaneSum(row, groups, lane, n))
  }

  lemma {:induction false} ZeroSum(v: seq<real>, k: nat)
    requires k <= |v| && forall i | 0 <= i < |v| :: v[i] == 0.0
    ensures SumTo(v, k) == 0.0
    decreases k
  {
    if k > 0 { ZeroSum(v, k - 1); }
  }

  /** The 32 strided partial sums add up to the sequential sum. */
  lemma {:induction false} LanesTotal(row: Row, groups: nat, n: nat)
    requires RowOk(row, groups) && n <= groups
    ensures SumTo(Lanes(row, groups, n), 32) == RowDot(row, groups, n)
    decreases n
  {
    hide RowOk, Term, SumTo;
    if n == 0 {
      ZeroSum(Lanes(row, groups, 0), 32);
    } else {
      LanesTotal(row, groups, n - 1);
      var before, at := Lanes(row, groups, n - 1), (n - 1) % 32;
      assert Lanes(row, groups, n) == before[at := before[at] + Term(row, groups, n - 1)];
      SumAdded(before, Lanes(row, groups, n), at, Term(row, groups, n - 1), 32);
    }
  }

  // ---------------------------------------------------------------- the shuffle tree

  /** `__shfl_down_sync`: a lane past the end of the warp receives its own value. */
  function ShuffleDown(v: seq<real>, i: nat, off: nat): real
    requires i < |v|
  {
    if i + off < |v| then v[i + off] else v[i]
  }

  function Shuffled(v: seq<real>, off: nat): (w: seq<real>)
    ensures |w| == |v|
  {
    seq(|v|, i requires 0 <= i < |v| => v[i] + ShuffleDown(v, i, off))
  }

  /** One step halves the stretch that carries the total. */
  lemma {:induction false} ShuffleFolds(v: seq<real>, off: nat, k: nat)
    requires k <= off && off + off <= |v|
    ensures SumTo(Shuffled(v, off), k) == SumTo(v, k) + SumTo(v, off + k) - SumTo(v, off)
    decreases k
  {
    if k > 0 {
      ShuffleFolds(v, off, k - 1);
      assert Shuffled(v, off)[k - 1] == v[k - 1] + v[off + k - 1];
    }
  }

  /** `warp_reduce`: lane 0 ends with the sum of all lanes, whatever garbage the others hold. */
  method WarpReduce(v: seq<real>) returns (r: real)
    requires |v| == 32
    ensures r == SumTo(v, 32)
  {
    hide SumTo, Shuffled;
    var w, off := v, 16;
    while off > 0
      invariant |w| == 32 && off in {16, 8, 4, 2, 1, 0}
      invariant SumTo(w, if off == 0 then 1 else 2 * off) == SumTo(v, 32)
    {
      ShuffleFolds(w, off, off);
      w, off := Shuffled(w, off), off / 2;
    }
    SumOne(w);
    r := w[0];
  }

  lemma SumOne(v: seq<real>)
    requires v != []
    ensures SumTo(v, 1) == v[0]
  {
    assert SumTo(v, 0) == 0.0;
  }

  // ---------------------------------------------------------------- the kernel and its model

  /** One warp computes one row. */
  method WarpRow(row: Row, groups: nat, xs: real) returns (y: real)
    requires RowOk(row, groups)
    ensures y == RowDot(row, groups, groups) * xs
  {
    hide RowOk, RowDot, SumTo, Lanes, LaneSum, Term;
    var acc: seq<real> := [];
    for lane := 0 to 32
      invariant |acc| == lane && forall l | 0 <= l < lane :: acc[l] == LaneSum(row, groups, l, groups)
    {
      var a := LaneLoop(row, groups, lane);
      acc := acc + [a];
    }
    LanesAre(row, groups, acc);
    LanesTotal(row, groups, groups);
    var total := WarpReduce(acc);
    y := total * xs;
  }

  lemma LanesAre(row: Row, groups: nat, acc: seq<real>)
    requires RowOk(row, groups) && |acc| == 32 && forall l | 0 <= l < 32 :: acc[l] == LaneSum(row, groups, l, groups)
    ensures acc == Lanes(row, groups, groups)
  {
    hide RowOk, LaneSum;
  }

  /** The strided loop of one lane. */
  method LaneLoop(row: Row, groups: nat, lane: nat) returns (acc: real)
    requires RowOk(row, groups) && lane < 32
    ensures acc == LaneSum(row, groups, lane, groups)
  {
    hide RowOk, LaneSum, PartSum, Term;
    acc := 0.0;
    var g := lane;
    LaneStart(row, groups, lane);
    while g < groups
      invariant g % 32 == lane
      invariant acc == LaneSum(row, groups, lane, if g < groups then g else groups)
    {
      GroupRoom(row, groups, g);
      HasScale(row, groups, g);
      var s := LaneGroup(row, groups, g);
      LaneAdvance(row, groups, lane, g);
      acc := acc + s as real * row.ws[g];
      g := g + 32;
    }
  }

  lemma HasScale(row: Row, groups: nat, g: nat)
    requires RowOk(row, groups) && g < groups
    ensures g < |row.ws| && g * 16 + 16 <= |row.q| && g * 32 + 32 <= |row.xq|
    ensures Term(row, groups, g) == PartSum(row, g, 32) as real * row.ws[g]
  {
    hide PartSum;
  }

  lemma LaneStart(row: Row, groups: nat, lane: nat)
    requires RowOk(row, groups) && lane < 32
    ensures LaneSum(row, groups, lane, if lane < groups then lane else groups) == 0.0
  {
    hide RowOk, Term;
    LaneSkips(row, groups, lane, 0, if lane < groups then lane else groups);
  }

  lemma LaneAdvance(row: Row, groups: nat, lane: nat, g: nat)
    requires RowOk(row, groups) && g < groups && g % 32 == lane
    ensures LaneSum(row, groups, lane, if g + 32 < groups then g + 32 else groups) ==
            LaneSum(row, groups, lane, g) + Term(row, groups, g)
  {
    hide RowOk, Term;
    LaneSkips(row, groups, lane, g + 1, if g + 32 < groups then g + 32 else groups);
  }

  /** Operands of the product: `m` rows, `k` columns, nibbles two to a byte. */
  datatype Operands = Operands(q: seq<bv8>, ws: seq<real>, xq: seq<int>, xs: real, m: nat, k: nat)

  ghost predicate OperandsOk(o: Operands) {
    && |o.q| == o.m * (o.k / 2) && |o.ws| == o.m * (o.k / 32) && |o.xq| == o.k
    && forall i | 0 <= i < |o.xq| :: Int8(o.xq[i])
  }

  lemma HalvesHoldGroups(k: nat)
    ensures k / 32 * 16 <= k / 2
  {
  }

  lemma RowRoom(o: Operands, r: nat)
    requires OperandsOk(o) && r < o.m
    ensures 0 <= r * (o.k / 2) && r * (o.k / 2) + o.k / 32 * 16 <= |o.q|
    ensures 0 <= r * (o.k / 32) && r * (o.k / 32) + o.k / 32 <= |o.ws|
  {
    HalvesHoldGroups(o.k);
    BlockFits(r, o.m, o.k / 2, o.k / 32 * 16);
    BlockFits(r, o.m, o.k / 32, o.k / 32);
  }

  /** The pointers `w` and `ws` of the kernel for row `r`. */
  function RowOf(o: Operands, r: nat): (row: Row)
    requires OperandsOk(o) && r < o.m
    ensures RowOk(row, o.k / 32)
  {
    RowRoom(o, r);
    Row(o.q[r * (o.k / 2)..r * (o.k / 2) + o.k / 32 * 16], o.ws[r * (o.k / 32)..r * (o.k / 32) + o.k / 32], o.xq)
  }

  /** What both programs must compute. */
  function Expected(o: Operands, r: nat): real
    requires OperandsOk(o) && r < o.m
  {
    RowDot(RowOf(o, r), o.k / 32, o.k / 32) * o.xs
  }

  /** `gemv_q4`, one warp per row. */
  method GemvQ4(o: Operands) returns (y: seq<real>)
    requires OperandsOk(o)
    ensures |y| == o.m && forall r: nat | r < o.m :: y[r] == Expected(o, r)
  {
    hide OperandsOk, RowDot, RowOk;
    y := [];
    for r := 0 to o.m
      invariant |y| == r && forall i: nat | i < r :: y[i] == Expected(o, i)
    {
      var v := WarpRow(RowOf(o, r), o.k / 32, o.xs);
      y := y + [v];
    }
  }

  /** The indices of the sequential model point at the same bytes. */
  lemma SameProduct(o: Operands, r: nat, g: nat, i: nat)
    requires OperandsOk(o) && r < o.m && g < o.k / 32 && i < 32
    ensures RowOk(RowOf(o, r), o.k / 32)
    ensures g * 16 + 16 <= |RowOf(o, r).q| && g * 32 + 32 <= |RowOf(o, r).xq|
    ensures 0 <= r * (o.k / 2) + (g * 32 + i) / 2 < |o.q| && g * 32 + i < |o.xq|
    ensures Product(RowOf(o, r), g, i) == Weight(o.q[r * (o.k / 2) + (g * 32 + i) / 2], i) * o.xq[g * 32 + i]
  {
    hide OperandsOk, Weight;
    RowRoom(o, r);
    GroupRoom(RowOf(o, r), o.k / 32, g);
    assert (g * 32 + i) / 2 == g * 16 + i / 2;
  }

  lemma SameScale(o: Operands, r: nat, g: nat)
    requires OperandsOk(o) && r < o.m && g < o.k / 32
    ensures 0 <= r * (o.k / 32) + g < |o.ws|
    ensures RowOf(o, r).ws[g] == o.ws[r * (o.k / 32) + g]
  {
    RowRoom(o, r);
  }

  /** `cpu_ref_q4`: the plain triple loop. */
  method CpuRefQ4(o: Operands) returns (y: seq<real>)
    requires OperandsOk(o)
    ensures |y| == o.m && forall r: nat | r < o.m :: y[r] == Expected(o, r)
  {
    hide OperandsOk, RowOf, Product, Weight, RowOk, Term;
    y := [];
    for r := 0 to o.m
      invariant |y| == r && forall i: nat | i < r :: y[i] == Expected(o, i)
    {
      ghost var row := RowOf(o, r);
      var acc := 0.0;
      for g := 0 to o.k / 32
        invariant acc == RowDot(row, o.k / 32, g)
      {
        GroupRoom(row, o.k / 32, g);
        var s := 0;
        for i := 0 to 32
          invariant s == PartSum(row, g, i)
        {
          SameProduct(o, r, g, i);
          s := s + Weight(o.q[r * (o.k / 2) + (g * 32 + i) / 2], i) * o.xq[g * 32 + i];
        }
        SameScale(o, r, g);
        HasScale(row, o.k / 32, g);
        acc := acc + s as real * o.ws[r * (o.k / 32) + g];
      }
      y := y + [acc * o.xs];
    }
  }
}
