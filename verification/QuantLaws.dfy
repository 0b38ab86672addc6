/** What the bits of the block formats denote, in plain arithmetic: halves, six-bit codes and nibbles. */
module QuantLaws {
  import opened Numbers
  import opened Quant
  import GgufFormat
  import ModelWeights
  import PackedWords

  // ---------------------------------------------------------------- binary16

  /** Magnitudes of a half, completely: up to 2^-13 the pattern counts units of 2^-24, subnormals and the first normal
      exponent alike, and from there on one more in the exponent field doubles the magnitude. */
  lemma HalfScale(h: nat)
    requires h < 0x7C00
    ensures h <= 0x800 ==> HalfUnits(h) == h
    ensures 0x400 <= h && h + 0x400 < 0x7C00 ==> HalfUnits(h + 0x400) == 2 * HalfUnits(h)
  {
    assert Pow2(0) == 1 && Pow2(1) == 2;
    if 0x400 <= h {
      var exp, mant := h / 1024, h % 1024;
      DivModUnique(h + 0x400, 1024, exp + 1, mant);
      Doubling(mant + 1024, exp);
    }
  }

  lemma Doubling(a: nat, exp: nat)
    requires exp > 0
    ensures a * Pow2(exp) == 2 * (a * Pow2(exp - 1))
  {
    assert Pow2(exp) == 2 * Pow2(exp - 1);
  }

  lemma {:induction false} OneUnits(k: nat)
    requires k <= 14
    ensures HalfUnits(0x400 + 0x400 * k) == 0x400 * Pow2(k)
  {
    hide HalfUnits;
    HalfScale(0x400);
    if k > 0 {
      OneUnits(k - 1);
      HalfScale(0x400 + 0x400 * (k - 1));
    }
  }

  lemma {:induction false} PowersMultiply(a: nat, b: nat)
    ensures Pow2(a + b) == Pow2(a) * Pow2(b)
    decreases b
  {
    if b > 0 {
      PowersMultiply(a, b - 1);
      assert Pow2(a + b) == 2 * Pow2(a + (b - 1));
    }
  }

  /** The pattern 0x3C00 is one: 2^24 units of 2^-24. The sign bit only changes the sign, 0x7C00 is infinite and what
      follows it is no number. */
  lemma HalfLandmarks(h: nat)
    requires h < 0x8000
    ensures Fp16(0x3C00) == Finite(false, 0x100_0000)
    ensures h < 0x7C00 ==> Fp16(h) == Finite(false, HalfUnits(h)) && Fp16(h + 0x8000) == Finite(true, HalfUnits(h))
    ensures h == 0x7C00 ==> Fp16(h) == Infinite(false) && Fp16(h + 0x8000) == Infinite(true)
    ensures h > 0x7C00 ==> Fp16(h).NotANumber? && Fp16(h + 0x8000).NotANumber?
  {
    hide Fp16, HalfUnits;
    Fp16Split(h);
    Fp16Split(h + 0x8000);
    Fp16Split(0x3C00);
    OneUnits(14);
    Pow2Fourteen();
  }

  lemma Pow2Fourteen()
    ensures Pow2(14) == 0x4000
  {
    assert Pow2(3) == 8;
    assert Pow2(7) == 128 by { assert Pow2(5) == 32; }
    PowersMultiply(7, 7);
  }

  lemma TwoBytesAre(h: nat)
    requires h < 0x1_0000
    ensures GgufFormat.LE(h, 2) == [h % 256, h / 256]
  {
    var bs := GgufFormat.LE(h, 2);
    assert bs[0] == h % 256 && GgufFormat.LE(h / 256, 1)[0] == h / 256 % 256 && bs[1] == GgufFormat.LE(h / 256, 1)[0];
  }

  lemma HalfOf<F>(ops: Ops<F>, b0: bv8, b1: bv8, low: nat, high: nat)
    requires b0 as int == low && b1 as int == high
    ensures low + 256 * high < 0x1_0000 && Half(ops, b0, b1) == ops.float(Fp16(low + 256 * high))
  {
    hide Fp16;
    TwoBytes(b0, b1);
  }

  /** A scale is read from its two bytes, the least significant first. */
  lemma HalfFromBytes<F>(ops: Ops<F>, h: nat)
    requires h < 0x1_0000
    ensures var b := ModelWeights.Bits(GgufFormat.LE(h, 2)); Half(ops, b[0], b[1]) == ops.float(Fp16(h))
  {
    hide Fp16, Half, ModelWeights.Bits;
    TwoBytesAre(h);
    var b := ModelWeights.Bits(GgufFormat.LE(h, 2));
    HalfOf(ops, b[0], b[1], h % 256, h / 256);
  }

  // ---------------------------------------------------------------- six-bit codes

  lemma FourFields(a: bv8, b: bv8, c: bv8, d: bv8)
    requires a < 4 && b < 4 && c < 4 && d < 4
    ensures (a | (b << 2) | (c << 4) | (d << 6)) as int == a as int + 4 * (b as int) + 16 * (c as int) + 64 * (d as int)
  {
    assert a | (b << 2) < 16 && c | (d << 2) < 16;
    assert a | (b << 2) | (c << 4) | (d << 6) == ((c | (d << 2)) << 4) | (a | (b << 2));
    PackedWords.Digits(c | (d << 2), a | (b << 2));
    TwoFields(a, b);
    TwoFields(c, d);
  }

  lemma TwoFields(a: bv8, b: bv8)
    requires a < 4 && b < 4
    ensures (a | (b << 2)) as int == a as int + 4 * (b as int)
  {
  }

  lemma FieldsJoin(q: bv8)
    ensures Field(q, 0) < 4 && Field(q, 1) < 4 && Field(q, 2) < 4 && Field(q, 3) < 4
    ensures Field(q, 0) | (Field(q, 1) << 2) | (Field(q, 2) << 4) | (Field(q, 3) << 6) == q
  {
  }

  lemma FourDigits(q: nat, a: nat, b: nat, c: nat, d: nat)
    requires a < 4 && b < 4 && c < 4 && d < 4 && q == a + 4 * b + 16 * c + 64 * d
    ensures q % 4 == a && q / 4 % 4 == b && q / 16 % 4 == c && q / 64 % 4 == d
  {
  }

  lemma SmallField(q: bv8, m: nat)
    requires m < 4
    ensures 0 <= Field(q, m) as int < 4
  {
    FieldSmall(q, m);
    Below4(Field(q, m));
  }

  lemma Below4(f: bv8)
    requires f < 4
    ensures 0 <= f as int < 4
  {
  }

  /** Digit `m` of a number in base 4. */
  function Base4(n: nat, m: nat): nat {
    (if m == 0 then n else if m == 1 then n / 4 else if m == 2 then n / 16 else n / 64) % 4
  }

  lemma FieldIsDigit(q: bv8, m: nat)
    requires m < 4
    ensures Field(q, m) as int == Base4(q as int, m)
  {
    hide Field;
    FieldsJoin(q);
    FourFields(Field(q, 0), Field(q, 1), Field(q, 2), Field(q, 3));
    SmallField(q, 0);
    SmallField(q, 1);
    SmallField(q, 2);
    SmallField(q, 3);
    FourDigits(q as int, Field(q, 0) as int, Field(q, 1) as int, Field(q, 2) as int, Field(q, 3) as int);
  }

  lemma NibbleIsDigit(q: bv8)
    ensures q & 0x0F < 16 && q >> 4 < 16
    ensures (q & 0x0F) as int == q as int % 16 && (q >> 4) as int == q as int / 16
  {
    NibblesJoin(q);
    PackedWords.Digits(q >> 4, q & 0x0F);
    Below16(q & 0x0F);
    DivModUnique(q as int, 16, (q >> 4) as int, (q & 0x0F) as int);
  }

  lemma NibblesJoin(q: bv8)
    ensures q >> 4 < 16 && q & 0x0F < 16 && ((q >> 4) << 4) | (q & 0x0F) == q
  {
  }

  lemma Below16(f: bv8)
    requires f < 16
    ensures 0 <= f as int < 16
  {
  }

  lemma JoinedCode(lo: bv8, hi: bv8)
    requires lo < 16 && hi < 4
    ensures (lo | (hi << 4)) as int == lo as int + 16 * (hi as int)
  {
    assert lo | (hi << 4) == (hi << 4) | lo;
    PackedWords.Digits(hi, lo);
  }

  lemma Q6Parts(blk: seq<bv8>, half: nat, m: nat, l: nat)
    requires |blk| == 210 && half < 2 && m < 4 && l < 32
    ensures var low, high := blk[64 * half + 32 * (m % 2) + l], blk[128 + 32 * half + l];
            Code(blk, 128 * half + 32 * m + l) ==
            (if m < 2 then low & 0x0F else low >> 4) | (Field(high, m) << 4)
  {
    hide Field, LowAt, HighAt;
    HighPlace(half, m, l);
    LowPlace(half, m / 2, 32 * (m % 2) + l);
    assert 128 * half + 32 * m + l == 128 * half + 64 * (m / 2) + (32 * (m % 2) + l);
  }

  /** Place of code number 128 * half + 32 * m + l of a block: its low digit shares a byte with the code 64 further on
      or back, its high digit is digit `m` of the byte `l` of its half. */
  lemma Q6Place(blk: seq<bv8>, half: nat, m: nat, l: nat)
    requires |blk| == 210 && half < 2 && m < 4 && l < 32
    ensures var low, high := blk[64 * half + 32 * (m % 2) + l] as int, blk[128 + 32 * half + l] as int;
            Code(blk, 128 * half + 32 * m + l) as int == (if m < 2 then low % 16 else low / 16) + 16 * Base4(high, m)
  {
    hide Field, Base4, Code;
    Q6Parts(blk, half, m, l);
    var low, high := blk[64 * half + 32 * (m % 2) + l], blk[128 + 32 * half + l];
    NibbleIsDigit(low);
    FieldIsDigit(high, m);
    FieldSmall(high, m);
    JoinedCode(if m < 2 then low & 0x0F else low >> 4, Field(high, m));
  }

  /** Element `i` of a Q4_0 block: the low digit of byte `i`, or the high digit of byte `i - 16`. */
  lemma Q4Place(q: seq<bv8>, i: nat)
    requires |q| == 16 && i < 32
    ensures Q4Code(q, i) as int == if i < 16 then q[i] as int % 16 else q[i - 16] as int / 16
  {
    NibbleIsDigit(q[if i < 16 then i else i - 16]);
  }
}
