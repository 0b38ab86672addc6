/** What a row of the quantized product is: the real inner product of dequantized weights and activations. */
module GemvMeaning {
  import opened Numbers
  import opened PackedWords
  import opened QuantGroup
  import opened QuantGemv

  lemma JoinedHalves(b: bv8)
    ensures b >> 4 < 16 && b & 0xF < 16 && ((b >> 4) << 4) | (b & 0xF) == b
  {
  }

  /** The even position of a byte is its last hexadecimal digit, the odd one its first. */
  lemma HalfIsDigit(b: bv8, i: nat)
    ensures HalfByte(b, i) as int == if i % 2 == 0 then b as int % 16 else b as int / 16
  {
    JoinedHalves(b);
    var h, l := b >> 4, b & 0xF;
    Digits(h, l);
    NibbleRange(l);
    DivModUnique(b as int, 16, h as int, l as int);
  }

  lemma ColumnGroup(k: nat, c: nat)
    requires c < k / 32 * 32
    ensures c / 32 < k / 32 && c / 32 * 32 + c % 32 == c
  {
  }

  lemma WeightRoom(o: Operands, r: nat, c: nat)
    requires OperandsOk(o) && r < o.m && c < o.k / 32 * 32
    ensures 0 <= r * (o.k / 2) + c / 2 < |o.q| && 0 <= r * (o.k / 32) + c / 32 < |o.ws| && c < |o.xq|
  {
    hide RowOf;
    ColumnGroup(o.k, c);
    SameProduct(o, r, c / 32, c % 32);
    SameScale(o, r, c / 32);
  }

  /** The byte that holds column `c` of row `r`, and the scale of its group of 32 columns. */
  function ByteAt(o: Operands, r: nat, c: nat): bv8
    requires OperandsOk(o) && r < o.m && c < o.k / 32 * 32
  {
    WeightRoom(o, r, c);
    o.q[r * (o.k / 2) + c / 2]
  }

  function ScaleAt(o: Operands, r: nat, c: nat): real
    requires OperandsOk(o) && r < o.m && c < o.k / 32 * 32
  {
    WeightRoom(o, r, c);
    o.ws[r * (o.k / 32) + c / 32]
  }

  /** A dequantized weight: a digit less eight, times the scale. */
  function WeightAt(o: Operands, r: nat, c: nat): real
    requires OperandsOk(o) && r < o.m && c < o.k / 32 * 32
  {
    var b := ByteAt(o, r, c) as int;
    Times(((if c % 2 == 0 then b % 16 else b / 16) - 8) as real, ScaleAt(o, r, c))
  }

  function ActivationAt(o: Operands, c: nat): real
    requires c < |o.xq|
  {
    Times(o.xq[c] as real, o.xs)
  }

  /** The inner product over the first `n` columns. */
  function RealDot(o: Operands, r: nat, n: nat): real
    requires OperandsOk(o) && r < o.m && n <= o.k / 32 * 32
  {
    if n == 0 then 0.0
    else
      WeightRoom(o, r, n - 1);
      RealDot(o, r, n - 1) + Times(WeightAt(o, r, n - 1), ActivationAt(o, n - 1))
  }

  lemma ColumnOf(k: nat, g: nat, i: nat)
    requires g < k / 32 && i < 32
    ensures var c := g * 32 + i; c < k / 32 * 32 && c / 32 == g && c % 2 == i % 2
  {
    DivModUnique(g * 32 + i, 32, g, i);
    DivModUnique(g * 32 + i, 2, 16 * g + i / 2, i % 2);
  }

  /** The same bytes and scales as the row of the kernel has them. */
  lemma SameOperands(o: Operands, r: nat, g: nat, i: nat)
    requires OperandsOk(o) && r < o.m && g < o.k / 32 && i < 32
    ensures RowOk(RowOf(o, r), o.k / 32) && g * 32 + i < o.k / 32 * 32 && g * 32 + i < |o.xq|
    ensures g * 16 + 16 <= |RowOf(o, r).q| && g * 32 + 32 <= |RowOf(o, r).xq| && g < |RowOf(o, r).ws|
    ensures Product(RowOf(o, r), g, i) == Weight(ByteAt(o, r, g * 32 + i), i) * o.xq[g * 32 + i]
    ensures RowOf(o, r).ws[g] == ScaleAt(o, r, g * 32 + i)
  {
    hide OperandsOk, RowOf, Product, Weight;
    SameProduct(o, r, g, i);
    SameScale(o, r, g);
    ColumnOf(o.k, g, i);
    HasScale(RowOf(o, r), o.k / 32, g);
  }

  function Scaled(n: int, s: real, t: real): real {
    Times(Times(n as real, s), t)
  }

  lemma Regrouped(w: int, x: int, s: real, t: real)
    ensures Times(Times(w as real, s), Times(x as real, t)) == Scaled(w * x, s, t)
  {
    assert (w * x) as real == w as real * x as real;
    assert w as real * s * (x as real * t) == w as real * x as real * s * t;
  }

  lemma ScaledSum(a: int, b: int, s: real, t: real)
    ensures Scaled(a + b, s, t) == Scaled(a, s, t) + Scaled(b, s, t) && Scaled(0, s, t) == 0.0
  {
    assert (a + b) as real == a as real + b as real;
  }

  lemma OneProduct(o: Operands, r: nat, g: nat, i: nat)
    requires OperandsOk(o) && r < o.m && g < o.k / 32 && i < 32
    ensures RowOk(RowOf(o, r), o.k / 32) && g * 32 + i < o.k / 32 * 32 && g * 32 + i < |o.xq|
    ensures g * 16 + 16 <= |RowOf(o, r).q| && g * 32 + 32 <= |RowOf(o, r).xq| && g < |RowOf(o, r).ws|
    ensures Times(WeightAt(o, r, g * 32 + i), ActivationAt(o, g * 32 + i)) ==
            Scaled(Product(RowOf(o, r), g, i), RowOf(o, r).ws[g], o.xs)
  {
    hide OperandsOk, HalfByte, RowOf, RowOk, Product, ByteAt, ScaleAt, Times, Scaled;
    var c := g * 32 + i;
    SameOperands(o, r, g, i);
    ColumnOf(o.k, g, i);
    var b := ByteAt(o, r, c);
    HalfIsDigit(b, i);
    Regrouped(Weight(b, i), o.xq[c], ScaleAt(o, r, c), o.xs);
  }

  /** The products of a group, one after the other. */
  lemma {:induction false} GroupMeans(o: Operands, r: nat, g: nat, i: nat)
    requires OperandsOk(o) && r < o.m && g < o.k / 32 && i <= 32
    ensures RowOk(RowOf(o, r), o.k / 32) && g * 32 + i <= o.k / 32 * 32
    ensures g * 16 + 16 <= |RowOf(o, r).q| && g * 32 + 32 <= |RowOf(o, r).xq| && g < |RowOf(o, r).ws|
    ensures RealDot(o, r, g * 32 + i) ==
            RealDot(o, r, g * 32) + Scaled(PartSum(RowOf(o, r), g, i), RowOf(o, r).ws[g], o.xs)
  {
    hide OperandsOk, RowOf, RowOk, WeightAt, ActivationAt, Product, Times, Scaled;
    OneProduct(o, r, g, if i == 0 then 0 else i - 1);
    if i > 0 { GroupMeans(o, r, g, i - 1); }
    ScaledSum(if i == 0 then 0 else PartSum(RowOf(o, r), g, i - 1),
              if i == 0 then 0 else Product(RowOf(o, r), g, i - 1), RowOf(o, r).ws[g], o.xs);
  }

  lemma Distributed(a: real, t: real, s: real)
    ensures Times(a + t, s) == Times(a, s) + Times(t, s) && Times(0.0, s) == 0.0
  {
  }

  lemma TermScaled(row: Row, groups: nat, g: nat, t: real)
    requires RowOk(row, groups) && g < groups
    ensures g < |row.ws| && g * 16 + 16 <= |row.q| && g * 32 + 32 <= |row.xq|
    ensures Times(Term(row, groups, g), t) == Scaled(PartSum(row, g, 32), row.ws[g], t)
  {
    hide PartSum;
    HasScale(row, groups, g);
  }

  lemma {:induction false} GroupsMean(o: Operands, r: nat, n: nat)
    requires OperandsOk(o) && r < o.m && n <= o.k / 32
    ensures RowOk(RowOf(o, r), o.k / 32) && n * 32 <= o.k / 32 * 32
    ensures Times(RowDot(RowOf(o, r), o.k / 32, n), o.xs) == RealDot(o, r, n * 32)
  {
    hide OperandsOk, RowOf, RowOk, PartSum, Term, Times, Scaled;
    if n == 0 {
      Distributed(0.0, 0.0, o.xs);
    } else {
      GroupsMean(o, r, n - 1);
      GroupMeans(o, r, n - 1, 32);
      TermScaled(RowOf(o, r), o.k / 32, n - 1, o.xs);
      Distributed(RowDot(RowOf(o, r), o.k / 32, n - 1), Term(RowOf(o, r), o.k / 32, n - 1), o.xs);
    }
  }

  /** What both programs compute for a row: the inner product, over all whole groups of columns, of the dequantized
      weights with the dequantized activations. */
  lemma RowMeans(o: Operands, r: nat)
    requires OperandsOk(o) && r < o.m
    ensures Expected(o, r) == RealDot(o, r, o.k / 32 * 32)
  {
    hide RowDot, RealDot;
    GroupsMean(o, r, o.k / 32);
  }
}
