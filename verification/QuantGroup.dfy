/** One row of the quantized matrix and the integer sum of one of its groups, as a lane computes it. */
module QuantGroup {
  import opened Numbers
  import opened PackedWords

  // ---------------------------------------------------------------- one row

  /** One row of the matrix, as the pointers of the kernel see it, and the shared activations. */
  datatype Row = Row(q: seq<bv8>, ws: seq<real>, xq: seq<int>)

  ghost predicate RowOk(row: Row, groups: nat) {
    && |row.q| == groups * 16 && |row.ws| == groups && |row.xq| >= groups * 32
    && forall i | 0 <= i < |row.xq| :: Int8(row.xq[i])
  }

  function Product(row: Row, g: nat, i: nat): int
    requires g * 16 + 16 <= |row.q| && g * 32 + 32 <= |row.xq| && i < 32
  {
    Weight(row.q[g * 16 + i / 2], i) * row.xq[g * 32 + i]
  }

  /** Sum of the first `n` products of a group, in order. */
  function PartSum(row: Row, g: nat, n: nat): int
    requires g * 16 + 16 <= |row.q| && g * 32 + 32 <= |row.xq| && n <= 32
  {
    if n == 0 then 0 else PartSum(row, g, n - 1) + Product(row, g, n - 1)
  }

  lemma WeightRange(b: bv8, i: nat)
    ensures -8 <= Weight(b, i) <= 7
  {
    NibbleRange(HalfByte(b, i));
  }

  lemma NibbleRange(h: bv8)
    requires h < 16
    ensures 0 <= h as int < 16
  {
  }

  lemma ProductRange(w: int, x: int, top: int)
    requires -8 <= w <= 7 && -top <= x <= top
    ensures -8 * top <= w * x <= 8 * top
  {
    if x >= 0 {
      MulLe(-8, w, x);
      MulLe(w, 8, x);
    } else {
      MulLe(-8, w, -x);
      MulLe(w, 8, -x);
    }
  }

  /** With activations within `top`, every group sum stays within 256 times that: 32512 for a quantizer that
      never emits -128. */
  lemma {:induction false} GroupBound(row: Row, g: nat, n: nat, top: int)
    requires g * 16 + 16 <= |row.q| && g * 32 + 32 <= |row.xq| && n <= 32
    requires top >= 0 && forall i | 0 <= i < |row.xq| :: -top <= row.xq[i] <= top
    ensures -8 * top * n <= PartSum(row, g, n) <= 8 * top * n
    decreases n
  {
    hide Product;
    if n > 0 {
      GroupBound(row, g, n - 1, top);
      ProductBound(row, g, n - 1, top);
      StepBound(top, n);
    }
  }

  lemma StepBound(top: int, n: nat)
    requires n > 0
    ensures 8 * top * n == 8 * top * (n - 1) + 8 * top && -8 * top * n == -8 * top * (n - 1) - 8 * top
  {
  }

  lemma ProductBound(row: Row, g: nat, i: nat, top: int)
    requires g * 16 + 16 <= |row.q| && g * 32 + 32 <= |row.xq| && i < 32
    requires top >= 0 && forall j | 0 <= j < |row.xq| :: -top <= row.xq[j] <= top
    ensures -8 * top <= Product(row, g, i) <= 8 * top
  {
    hide Weight;
    WeightRange(row.q[g * 16 + i / 2], i);
    ProductRange(Weight(row.q[g * 16 + i / 2], i), row.xq[g * 32 + i], top);
  }

  lemma GroupWithin32512(row: Row, g: nat)
    requires g * 16 + 16 <= |row.q| && g * 32 + 32 <= |row.xq|
    requires forall i | 0 <= i < |row.xq| :: -127 <= row.xq[i] <= 127
    ensures -32512 <= PartSum(row, g, 32) <= 32512
  {
    hide PartSum;
    GroupBound(row, g, 32, 127);
  }

  lemma FourProducts(row: Row, g: nat, n: nat)
    requires g * 16 + 16 <= |row.q| && g * 32 + 32 <= |row.xq| && n + 4 <= 32
    ensures PartSum(row, g, n + 4) ==
            PartSum(row, g, n) + Product(row, g, n) + Product(row, g, n + 1) + Product(row, g, n + 2) +
            Product(row, g, n + 3)
  {
    hide Product;
    assert PartSum(row, g, n + 2) == PartSum(row, g, n) + Product(row, g, n) + Product(row, g, n + 1);
  }

  /** Half of an inner step: four nibbles of one word against one word of activations. */
  lemma HalfStep(row: Row, groups: nat, g: nat, j: nat, half: nat, w: bv32)
    requires RowOk(row, groups) && g < groups && j < 4 && half < 2
    requires g * 16 + 16 <= |row.q| && g * 32 + 32 <= |row.xq|
    requires w == Word(row.q[g * 16 + 4 * j], row.q[g * 16 + 4 * j + 1],
                       row.q[g * 16 + 4 * j + 2], row.q[g * 16 + 4 * j + 3])
    ensures var at := g * 32 + 8 * j + 4 * half;
            Dp4a(Pack4(Nib(w, 4 * half), Nib(w, 4 * half + 1), Nib(w, 4 * half + 2), Nib(w, 4 * half + 3)),
                 Pack4(row.xq[at], row.xq[at + 1], row.xq[at + 2], row.xq[at + 3]),
                 PartSum(row, g, 8 * j + 4 * half)) ==
            PartSum(row, g, 8 * j + 4 * half + 4)
  {
    hide Nib, Weight, Word, Pack4, Dp4a, PartSum, Wrap32, Product;
    var n, at := 8 * j + 4 * half, g * 32 + 8 * j + 4 * half;
    NibProduct(row, g, j, 4 * half, w);
    NibProduct(row, g, j, 4 * half + 1, w);
    NibProduct(row, g, j, 4 * half + 2, w);
    NibProduct(row, g, j, 4 * half + 3, w);
    Dp4aPacked(Nib(w, 4 * half), Nib(w, 4 * half + 1), Nib(w, 4 * half + 2), Nib(w, 4 * half + 3),
               row.xq[at], row.xq[at + 1], row.xq[at + 2], row.xq[at + 3], PartSum(row, g, n));
    FourProducts(row, g, n);
    NoWrap(row, g, n + 4);
  }

  lemma NibProduct(row: Row, g: nat, j: nat, i: nat, w: bv32)
    requires g * 16 + 16 <= |row.q| && g * 32 + 32 <= |row.xq| && j < 4 && i < 8
    requires w == Word(row.q[g * 16 + 4 * j], row.q[g * 16 + 4 * j + 1],
                       row.q[g * 16 + 4 * j + 2], row.q[g * 16 + 4 * j + 3])
    ensures Int8(Nib(w, i)) && Product(row, g, 8 * j + i) == Nib(w, i) * row.xq[g * 32 + 8 * j + i]
  {
    hide Nib, Weight, Word, PartSum;
    var four := row.q[g * 16 + 4 * j..g * 16 + 4 * j + 4];
    NibIsWeight(four, i);
    WeightRange(four[i / 2], i);
    assert four[i / 2] == row.q[g * 16 + (8 * j + i) / 2];
    WeightParity(four[i / 2], i, j);
  }

  lemma WeightParity(b: bv8, i: nat, j: nat)
    ensures Weight(b, 8 * j + i) == Weight(b, i)
  {
    hide Centred;
    DivModUnique(8 * j + i, 2, 4 * j + i / 2, i % 2);
  }

  lemma NoWrap(row: Row, g: nat, n: nat)
    requires g * 16 + 16 <= |row.q| && g * 32 + 32 <= |row.xq| && n <= 32
    requires forall i | 0 <= i < |row.xq| :: Int8(row.xq[i])
    ensures Wrap32(PartSum(row, g, n)) == PartSum(row, g, n)
  {
    hide PartSum;
    GroupBound(row, g, n, 128);
  }

  lemma GroupRoom(row: Row, groups: nat, g: nat)
    requires RowOk(row, groups) && g < groups
    ensures g * 16 + 16 <= |row.q| && g * 32 + 32 <= |row.xq|
  {
  }

  /** One group as a lane computes it: four words, two packed dot products each. */
  method LaneGroup(row: Row, groups: nat, g: nat) returns (s: int)
    requires RowOk(row, groups) && g < groups && g * 16 + 16 <= |row.q| && g * 32 + 32 <= |row.xq|
    ensures s == PartSum(row, g, 32)
  {
    hide Word, Nib, Pack4, Dp4a, PartSum;
    var base := g * 32;
    s := 0;
    PartSumStart(row, g);
    for j := 0 to 4
      invariant s == PartSum(row, g, 8 * j)
    {
      var at, x := g * 16 + 4 * j, base + 8 * j;
      var w := Word(row.q[at], row.q[at + 1], row.q[at + 2], row.q[at + 3]);
      HalfStep(row, groups, g, j, 0, w);
      HalfStep(row, groups, g, j, 1, w);
      var lo := Pack4(Nib(w, 0), Nib(w, 1), Nib(w, 2), Nib(w, 3));
      var hi := Pack4(Nib(w, 4), Nib(w, 5), Nib(w, 6), Nib(w, 7));
      s := Dp4a(lo, Pack4(row.xq[x], row.xq[x + 1], row.xq[x + 2], row.xq[x + 3]), s);
      s := Dp4a(hi, Pack4(row.xq[x + 4], row.xq[x + 5], row.xq[x + 6], row.xq[x + 7]), s);
    }
  }

  lemma PartSumStart(row: Row, g: nat)
    requires g * 16 + 16 <= |row.q| && g * 32 + 32 <= |row.xq|
    ensures PartSum(row, g, 0) == 0
  {
  }
}
