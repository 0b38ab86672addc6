/** The GGUF block codecs on the host: bit layouts, dequantization and repacking. */
module Quant {
  import opened Common
  import opened Numbers

  /** Float operations of the codecs, uninterpreted: the float nearest to the value of a half, a signed byte and a
      small integer as floats, and the product. */
  datatype Ops<!F> = Ops(float: HalfValue -> F, signed: bv8 -> F, level: int -> F, mul: (F, F) -> F)

  // ---------------------------------------------------------------- binary16

  /** Magnitude of a finite half in units of 2^-24, from its exponent and fraction fields. */
  function HalfUnits(h: nat): nat
    requires h < 0x7C00
  {
    var exp, mant := h / 1024, h % 1024;
    if exp == 0 then mant else (mant + 1024) * Pow2(exp - 1)
  }

  function Pow2(n: nat): (p: nat)
    ensures p > 0
  {
    if n == 0 then 1 else 2 * Pow2(n - 1)
  }

  lemma HalfNext(h: nat)
    requires h + 1 < 0x7C00
    ensures HalfUnits(h) < HalfUnits(h + 1)
  {
    var exp, mant := h / 1024, h % 1024;
    if mant < 1023 {
      DivModUnique(h + 1, 1024, exp, mant + 1);
      if exp > 0 { Distribute(mant + 1024, Pow2(exp - 1)); }
    } else {
      DivModUnique(h + 1, 1024, exp + 1, 0);
      if exp > 0 {
        Doubled(Pow2(exp - 1));
      }
    }
  }

  lemma Distribute(a: nat, p: nat)
    requires p > 0
    ensures a * p < (a + 1) * p
  {
  }

  lemma Doubled(p: nat)
    requires p > 0
    ensures 2047 * p < 1024 * (2 * p)
  {
  }

  /** Finite halves of one sign are ordered as their bit patterns, across the subnormal boundary and every
      change of exponent; in particular no two patterns decode to one value. */
  lemma {:induction false} HalfIncreasing(g: nat, h: nat)
    requires g < h < 0x7C00
    ensures HalfUnits(g) < HalfUnits(h)
    decreases h
  {
    hide HalfUnits;
    HalfNext(h - 1);
    if g < h - 1 { HalfIncreasing(g, h - 1); }
  }

  /** What a half denotes: the sign, and the magnitude in units of 2^-24 when finite. */
  datatype HalfValue = NotANumber | Infinite(negative: bool) | Finite(negative: bool, units: nat)

  /** `fp16_to_float`, on a 16-bit pattern. */
  function Fp16(h: nat): HalfValue
    requires h < 0x1_0000
  {
    var negative, exp, mant := h / 0x8000 == 1, h / 1024 % 32, h % 1024;
    if exp == 0 then Finite(negative, mant)
    else if exp == 31 then if mant != 0 then NotANumber else Infinite(negative)
    else Finite(negative, (mant + 1024) * Pow2(exp - 1))
  }

  /** The scale of a block: a half in two little-endian bytes. */
  function Half<F>(ops: Ops<F>, b0: bv8, b1: bv8): F {
    TwoBytes(b0, b1);
    ops.float(Fp16(b0 as int + 256 * (b1 as int)))
  }

  lemma TwoBytes(b0: bv8, b1: bv8)
    ensures 0 <= b0 as int + 256 * (b1 as int) < 0x1_0000
  {
  }

  lemma Fp16Split(h: nat)
    requires h < 0x1_0000
    ensures var low := h % 0x8000;
            Fp16(h) == if low < 0x7C00 then Finite(h >= 0x8000, HalfUnits(low))
                       else if low == 0x7C00 then Infinite(h >= 0x8000) else NotANumber
  {
    var low := h % 0x8000;
    assert h == 0x8000 * (h / 0x8000) + low;
    DivModUnique(h, 1024, 32 * (h / 0x8000) + low / 1024, low % 1024);
    DivModUnique(h / 1024, 32, h / 0x8000, low / 1024);
  }

  /** Decoding loses nothing but the payload of a NaN: distinct patterns denote distinct values, the two zeros
      included. */
  lemma Fp16Injective(g: nat, h: nat)
    requires g < h < 0x1_0000 && !Fp16(g).NotANumber?
    ensures Fp16(g) != Fp16(h)
  {
    hide Fp16, HalfUnits;
    Fp16Split(g);
    Fp16Split(h);
    var low, high := g % 0x8000, h % 0x8000;
    if high < low < 0x7C00 { HalfIncreasing(high, low); }
    if low < high < 0x7C00 { HalfIncreasing(low, high); }
  }

  // ---------------------------------------------------------------- Q6_K layout

  /** The 2-bit field number `m` of a byte. */
  function Field(q: bv8, m: nat): bv8
    requires m < 4
  {
    if m == 0 then q & 3 else if m == 1 then (q >> 2) & 3 else if m == 2 then (q >> 4) & 3 else (q >> 6) & 3
  }

  function Placed(hi: bv8, m: nat): bv8
    requires m < 4
  {
    if m == 0 then hi else if m == 1 then hi << 2 else if m == 2 then hi << 4 else hi << 6
  }

  /** Offsets of the byte with the low nibble and the byte with the high field of code `j`. */
  function LowAt(j: nat): (p: nat)
    requires j < 256
    ensures p < 128
  {
    64 * (j / 128) + j % 128 % 64
  }

  function HighAt(j: nat): (p: nat)
    requires j < 256
    ensures p < 64
  {
    32 * (j / 128) + j % 128 % 32
  }

  /** The first of the two codes with a nibble in low byte `p`; the other is 64 further on. */
  function LowFirst(p: nat): (j: nat)
    requires p < 128
    ensures j + 64 < 256
  {
    128 * (p / 64) + p % 64
  }

  /** The first of the four codes with a field in high byte `p`; the others follow 32 apart. */
  function HighFirst(p: nat): (j: nat)
    requires p < 64
    ensures j + 96 < 256
  {
    128 * (p / 32) + p % 32
  }

  lemma LowPlace(h: nat, q: nat, r: nat)
    requires h < 2 && q < 2 && r < 64
    ensures LowAt(128 * h + 64 * q + r) == 64 * h + r
    ensures (128 * h + 64 * q + r) % 128 == 64 * q + r
  {
    DivModUnique(128 * h + 64 * q + r, 128, h, 64 * q + r);
    DivModUnique(64 * q + r, 64, q, r);
  }

  lemma LowWhich(n: nat, p: nat)
    requires n < 256 && p < 128
    ensures p == LowAt(n) <==> n == LowFirst(p) || n == LowFirst(p) + 64
    ensures p == LowAt(n) ==> (n == LowFirst(p) <==> n % 128 < 64)
    ensures LowAt(LowFirst(p)) == p && LowFirst(p) % 128 < 64
    ensures LowAt(LowFirst(p) + 64) == p && (LowFirst(p) + 64) % 128 >= 64
  {
    hide LowAt;
    var h, r := p / 64, p % 64;
    LowPlace(h, 0, r);
    LowPlace(h, 1, r);
    LowPlace(n / 128, n % 128 / 64, n % 64);
  }

  lemma HighPlace(h: nat, m: nat, r: nat)
    requires h < 2 && m < 4 && r < 32
    ensures HighAt(128 * h + 32 * m + r) == 32 * h + r
    ensures (128 * h + 32 * m + r) % 128 / 32 == m
  {
    DivModUnique(128 * h + 32 * m + r, 128, h, 32 * m + r);
    DivModUnique(32 * m + r, 32, m, r);
  }

  lemma HighWhich(n: nat, p: nat)
    requires n < 256 && p < 64
    ensures p == HighAt(n) <==> n == HighFirst(p) + 32 * (n % 128 / 32)
  {
    hide HighAt;
    var h, m, r := n / 128, n % 128 / 32, n % 32;
    assert n == 128 * h + 32 * m + r;
    HighPlace(h, m, r);
    DivModUnique(p, 32, p / 32, p % 32);
    if p == HighAt(n) { DivModUnique(p, 32, h, r); }
    if n == HighFirst(p) + 32 * m { HighPlace(p / 32, m, p % 32); }
  }

  lemma HighOwners(p: nat, m: nat)
    requires p < 64 && m < 4
    ensures HighAt(HighFirst(p) + 32 * m) == p && (HighFirst(p) + 32 * m) % 128 / 32 == m
  {
    hide HighAt;
    HighPlace(p / 32, m, p % 32);
  }

  /** Code `j` of a block, as the dequantizer assembles it. */
  function Code(blk: seq<bv8>, j: nat): bv8
    requires |blk| == 210 && j < 256
  {
    var k := j % 128;
    var lob := blk[LowAt(j)];
    var lo := if k < 64 then lob & 0x0F else lob >> 4;
    var hi := Field(blk[128 + HighAt(j)], k / 32);
    lo | (hi << 4)
  }

  function Codes(blk: seq<bv8>): (codes: seq<bv8>)
    requires |blk| == 210
    ensures |codes| == 256
  {
    seq(256, j requires 0 <= j < 256 => Code(blk, j))
  }

  predicate SixBits(codes: seq<bv8>) {
    forall j | 0 <= j < |codes| :: codes[j] < 64
  }

  function LowByte(codes: seq<bv8>, p: nat): bv8
    requires |codes| == 256 && p < 128
  {
    var j := LowFirst(p);
    (codes[j] & 15) | ((codes[j + 64] & 15) << 4)
  }

  function HighByte(codes: seq<bv8>, p: nat): bv8
    requires |codes| == 256 && p < 64
  {
    var j := HighFirst(p);
    (codes[j] >> 4) | ((codes[j + 32] >> 4) << 2) | ((codes[j + 64] >> 4) << 4) | ((codes[j + 96] >> 4) << 6)
  }

  /** A block: low nibbles, high fields, sixteen sub-block scales, the half scale. */
  function Pack(codes: seq<bv8>, scales: seq<bv8>, d: seq<bv8>): (blk: seq<bv8>)
    requires |codes| == 256 && |scales| == 16 && |d| == 2
    ensures |blk| == 210
  {
    seq(128, p requires 0 <= p < 128 => LowByte(codes, p)) +
    seq(64, p requires 0 <= p < 64 => HighByte(codes, p)) + scales + d
  }

  lemma PackBytes(codes: seq<bv8>, scales: seq<bv8>, d: seq<bv8>)
    requires |codes| == 256 && |scales| == 16 && |d| == 2
    ensures forall p: nat | p < 128 :: Pack(codes, scales, d)[p] == LowByte(codes, p)
    ensures forall p: nat | p < 64 :: Pack(codes, scales, d)[128 + p] == HighByte(codes, p)
    ensures Pack(codes, scales, d)[192..208] == scales && Pack(codes, scales, d)[208..] == d
  {
    hide LowByte, HighByte;
  }

  lemma NibbleBits(a: bv8, b: bv8)
    ensures ((a & 15) | ((b & 15) << 4)) & 0x0F == a & 15
    ensures ((a & 15) | ((b & 15) << 4)) >> 4 == b & 15
  {
  }

  lemma FieldBits(a: bv8, b: bv8, c: bv8, d: bv8)
    requires a < 4 && b < 4 && c < 4 && d < 4
    ensures var q := a | (b << 2) | (c << 4) | (d << 6);
            Field(q, 0) == a && Field(q, 1) == b && Field(q, 2) == c && Field(q, 3) == d
  {
  }

  lemma CodeBits(c: bv8)
    requires c < 64
    ensures c >> 4 < 4 && (c & 15) | ((c >> 4) << 4) == c
  {
  }

  lemma LowOf(codes: seq<bv8>, j: nat)
    requires |codes| == 256 && j < 256
    ensures var lob := LowByte(codes, LowAt(j));
            (if j % 128 < 64 then lob & 0x0F else lob >> 4) == codes[j] & 15
  {
    hide LowAt, LowFirst;
    var i := LowFirst(LowAt(j));
    LowWhich(j, LowAt(j));
    NibbleBits(codes[i], codes[i + 64]);
  }

  lemma HighOf(codes: seq<bv8>, j: nat)
    requires |codes| == 256 && SixBits(codes) && j < 256
    ensures Field(HighByte(codes, HighAt(j)), j % 128 / 32) == codes[j] >> 4
  {
    hide Field, HighAt, HighFirst;
    var i := HighFirst(HighAt(j));
    HighWhich(j, HighAt(j));
    CodeBits(codes[i]);
    CodeBits(codes[i + 32]);
    CodeBits(codes[i + 64]);
    CodeBits(codes[i + 96]);
    FieldBits(codes[i] >> 4, codes[i + 32] >> 4, codes[i + 64] >> 4, codes[i + 96] >> 4);
  }

  /** Unpacking a packed block gives the codes back. */
  lemma CodeOfPacked(codes: seq<bv8>, scales: seq<bv8>, d: seq<bv8>, j: nat)
    requires |codes| == 256 && |scales| == 16 && |d| == 2 && SixBits(codes) && j < 256
    ensures Code(Pack(codes, scales, d), j) == codes[j]
  {
    hide LowByte, HighByte, Field, Pack, LowAt, HighAt;
    PackBytes(codes, scales, d);
    LowOf(codes, j);
    HighOf(codes, j);
    CodeBits(codes[j]);
  }

  lemma ByteOfNibbles(q: bv8, h0: bv8, h1: bv8)
    requires h0 < 4 && h1 < 4
    ensures ((((q & 0x0F) | (h0 << 4)) & 15) | ((((q >> 4) | (h1 << 4)) & 15) << 4)) == q
  {
  }

  lemma ByteOfFields(q: bv8, a: bv8, b: bv8, c: bv8, d: bv8)
    requires a < 16 && b < 16 && c < 16 && d < 16
    ensures ((a | (Field(q, 0) << 4)) >> 4) | (((b | (Field(q, 1) << 4)) >> 4) << 2) |
            (((c | (Field(q, 2) << 4)) >> 4) << 4) | (((d | (Field(q, 3) << 4)) >> 4) << 6) == q
  {
  }

  lemma FieldSmall(q: bv8, m: nat)
    requires m < 4
    ensures Field(q, m) < 4
  {
  }

  lemma NibblesSmall(q: bv8)
    ensures q & 0x0F < 16 && q >> 4 < 16
  {
  }

  /** The low nibble of code `j`, before the high field is placed above it. */
  function Low(blk: seq<bv8>, j: nat): (lo: bv8)
    requires |blk| == 210 && j < 256
    ensures lo < 16
  {
    NibblesSmall(blk[LowAt(j)]);
    if j % 128 < 64 then blk[LowAt(j)] & 0x0F else blk[LowAt(j)] >> 4
  }

  lemma CodeParts(blk: seq<bv8>, j: nat)
    requires |blk| == 210 && j < 256
    ensures Codes(blk)[j] == Code(blk, j) == Low(blk, j) | (Field(blk[128 + HighAt(j)], j % 128 / 32) << 4)
  {
    hide Field, LowAt, HighAt;
  }

  lemma LowBack(blk: seq<bv8>, p: nat)
    requires |blk| == 210 && p < 128
    ensures LowByte(Codes(blk), p) == blk[p]
  {
    hide Field, LowFirst, LowAt, HighAt, Code, Codes;
    var j := LowFirst(p);
    LowWhich(j, p);
    CodeParts(blk, j);
    CodeParts(blk, j + 64);
    var f, g := Field(blk[128 + HighAt(j)], j % 128 / 32), Field(blk[128 + HighAt(j + 64)], (j + 64) % 128 / 32);
    FieldSmall(blk[128 + HighAt(j)], j % 128 / 32);
    FieldSmall(blk[128 + HighAt(j + 64)], (j + 64) % 128 / 32);
    ByteOfNibbles(blk[p], f, g);
  }

  lemma HighPart(blk: seq<bv8>, p: nat, m: nat)
    requires |blk| == 210 && p < 64 && m < 4
    ensures Codes(blk)[HighFirst(p) + 32 * m] == Low(blk, HighFirst(p) + 32 * m) | (Field(blk[128 + p], m) << 4)
  {
    hide Field, LowAt, HighAt, Code, Codes, Low, HighFirst;
    HighOwners(p, m);
    CodeParts(blk, HighFirst(p) + 32 * m);
  }

  lemma HighBack(blk: seq<bv8>, p: nat)
    requires |blk| == 210 && p < 64
    ensures HighByte(Codes(blk), p) == blk[128 + p]
  {
    hide Field, HighFirst, Low, Code, Codes;
    var j := HighFirst(p);
    HighPart(blk, p, 0);
    HighPart(blk, p, 1);
    HighPart(blk, p, 2);
    HighPart(blk, p, 3);
    ByteOfFields(blk[128 + p], Low(blk, j), Low(blk, j + 32), Low(blk, j + 64), Low(blk, j + 96));
  }

  /** Packing what was unpacked gives the block back: the layout is a bijection between blocks and codes. */
  lemma PackOfCodes(blk: seq<bv8>)
    requires |blk| == 210
    ensures SixBits(Codes(blk))
    ensures Pack(Codes(blk), blk[192..208], blk[208..]) == blk
  {
    hide LowByte, HighByte, Code;
    forall j | 0 <= j < 256
      ensures Code(blk, j) < 64
    {
      CodeSmall(blk, j);
    }
    forall p | 0 <= p < 128
      ensures LowByte(Codes(blk), p) == blk[p]
    {
      LowBack(blk, p);
    }
    forall p | 0 <= p < 64
      ensures HighByte(Codes(blk), p) == blk[128 + p]
    {
      HighBack(blk, p);
    }
  }

  lemma CodeSmall(blk: seq<bv8>, j: nat)
    requires |blk| == 210 && j < 256
    ensures Code(blk, j) < 64
  {
    hide Field;
    FieldSmall(blk[128 + HighAt(j)], j % 128 / 32);
    OrSmall(Low(blk, j), Field(blk[128 + HighAt(j)], j % 128 / 32));
  }

  lemma OrSmall(lo: bv8, hi: bv8)
    requires lo < 16 && hi < 4
    ensures lo | (hi << 4) < 64
  {
  }

  // ---------------------------------------------------------------- the OR-ing packer

  /** The codes before number `n`, the others still zero. */
  function Masked(codes: seq<bv8>, n: nat): (r: seq<bv8>)
    ensures |r| == |codes|
  {
    seq(|codes|, i requires 0 <= i < |codes| => if i < n then codes[i] else 0)
  }

  lemma OrLow(a: bv8, b: bv8, c: bv8)
    ensures ((0 & 15) | ((b & 15) << 4)) | (c & 15) == (c & 15) | ((b & 15) << 4)
    ensures ((a & 15) | ((0 & 15) << 4)) | ((c & 15) << 4) == (a & 15) | ((c & 15) << 4)
  {
  }

  lemma LowStep(codes: seq<bv8>, n: nat, p: nat)
    requires |codes| == 256 && n < 256 && p < 128
    ensures LowByte(Masked(codes, n + 1), p) ==
            if p != LowAt(n) then LowByte(Masked(codes, n), p)
            else LowByte(Masked(codes, n), p) | (if n % 128 < 64 then codes[n] & 15 else (codes[n] & 15) << 4)
  {
    hide LowAt, LowFirst;
    var j := LowFirst(p);
    LowWhich(n, p);
    var m := Masked(codes, n);
    OrLow(m[j], m[j + 64], codes[n]);
  }

  lemma OrHigh(a: bv8, b: bv8, c: bv8, d: bv8, x: bv8)
    ensures (0 | (b << 2) | (c << 4) | (d << 6)) | x == x | (b << 2) | (c << 4) | (d << 6)
    ensures (a | (0 << 2) | (c << 4) | (d << 6)) | (x << 2) == a | (x << 2) | (c << 4) | (d << 6)
    ensures (a | (b << 2) | (0 << 4) | (d << 6)) | (x << 4) == a | (b << 2) | (x << 4) | (d << 6)
    ensures (a | (b << 2) | (c << 4) | (0 << 6)) | (x << 6) == a | (b << 2) | (c << 4) | (x << 6)
  {
  }

  lemma HighOwned(n: nat, p: nat)
    requires n < 256 && p < 64 && p != HighAt(n)
    ensures n != HighFirst(p) && n != HighFirst(p) + 32 && n != HighFirst(p) + 64 && n != HighFirst(p) + 96
  {
    hide HighAt, HighFirst;
    HighOwners(p, 0);
    HighOwners(p, 1);
    HighOwners(p, 2);
    HighOwners(p, 3);
  }

  lemma HighStep(codes: seq<bv8>, n: nat, p: nat)
    requires |codes| == 256 && n < 256 && p < 64
    ensures HighByte(Masked(codes, n + 1), p) ==
            if p != HighAt(n) then HighByte(Masked(codes, n), p)
            else HighByte(Masked(codes, n), p) | Placed(codes[n] >> 4, n % 128 / 32)
  {
    hide HighAt, HighFirst;
    var j := HighFirst(p);
    HighWhich(n, p);
    if p != HighAt(n) { HighOwned(n, p); }
    var m := Masked(codes, n);
    assert (0 as bv8) >> 4 == 0;
    OrHigh(m[j] >> 4, m[j + 32] >> 4, m[j + 64] >> 4, m[j + 96] >> 4, codes[n] >> 4);
  }

  /** OR-s every code's nibble and field into zeroed bytes, in index order, then appends the scales. */
  method PackByOr(codes: seq<bv8>, scales: seq<bv8>, d: seq<bv8>) returns (blk: array<bv8>)
    requires |codes| == 256 && |scales| == 16 && |d| == 2
    ensures fresh(blk) && blk[..] == Pack(codes, scales, d)
  {
    hide LowByte, HighByte, LowAt, HighAt, Placed;
    blk := new bv8[210](_ => 0);
    NothingYet(codes);
    for n := 0 to 256
      invariant forall p: nat | p < 128 :: blk[p] == LowByte(Masked(codes, n), p)
      invariant forall p: nat | 128 <= p < 192 :: blk[p] == HighByte(Masked(codes, n), p - 128)
    {
      forall p: nat | p < 128
        ensures LowByte(Masked(codes, n + 1), p) ==
                if p != LowAt(n) then LowByte(Masked(codes, n), p)
                else LowByte(Masked(codes, n), p) | (if n % 128 < 64 then codes[n] & 15 else (codes[n] & 15) << 4)
      {
        LowStep(codes, n, p);
      }
      forall p: nat | p < 64
        ensures HighByte(Masked(codes, n + 1), p) ==
                if p != HighAt(n) then HighByte(Masked(codes, n), p)
                else HighByte(Masked(codes, n), p) | Placed(codes[n] >> 4, n % 128 / 32)
      {
        HighStep(codes, n, p);
      }
      var k := n % 128;
      var lo, hi := codes[n] & 15, codes[n] >> 4;
      var at := LowAt(n);
      blk[at] := blk[at] | (if k < 64 then lo else lo << 4);
      at := 128 + HighAt(n);
      blk[at] := blk[at] | Placed(hi, k / 32);
    }
    assert Masked(codes, 256) == codes;
    for s := 0 to 16
      invariant forall p: nat | p < 128 :: blk[p] == LowByte(codes, p)
      invariant forall p: nat | 128 <= p < 192 :: blk[p] == HighByte(codes, p - 128)
      invariant forall p: nat | p < s :: blk[192 + p] == scales[p]
    {
      blk[192 + s] := scales[s];
    }
    blk[208], blk[209] := d[0], d[1];
  }

  lemma NothingYet(codes: seq<bv8>)
    requires |codes| == 256
    ensures forall p: nat | p < 128 :: LowByte(Masked(codes, 0), p) == 0
    ensures forall p: nat | p < 64 :: HighByte(Masked(codes, 0), p) == 0
  {
  }

  // ---------------------------------------------------------------- Q6_K dequantization

  /** `d * sc[j / 16] * (code - 32)`. */
  function Q6Value<F>(ops: Ops<F>, blk: seq<bv8>, j: nat): F
    requires |blk| == 210 && j < 256
  {
    ops.mul(ops.mul(Half(ops, blk[208], blk[209]), ops.signed(blk[192 + j / 16])), ops.level(Code(blk, j) as int - 32))
  }

  /** Block number `b` of a run of blocks of `size` bytes. */
  function BlockAt(blocks: seq<bv8>, size: nat, b: nat): (blk: seq<bv8>)
    requires (b + 1) * size <= |blocks|
    ensures |blk| == size
  {
    assert b * size + size == (b + 1) * size;
    blocks[b * size..b * size + size]
  }

  lemma BlockRoom(n: nat, size: nat, b: nat)
    requires b < n
    ensures 0 <= b * size && b * size + size == (b + 1) * size <= n * size
  {
    MulLe(b + 1, n, size);
  }

  lemma BlockIs(blocks: seq<bv8>, size: nat, b: nat, n: nat)
    requires b < n && n * size <= |blocks|
    ensures b * size + size == (b + 1) * size <= |blocks|
    ensures BlockAt(blocks, size, b) == blocks[b * size..b * size + size]
  {
    BlockRoom(n, size, b);
  }

  /** Element `n` of a run of blocks. */
  function Q6At<F>(ops: Ops<F>, blocks: seq<bv8>, n: nat): F
    requires (n / 256 + 1) * 210 <= |blocks|
  {
    Q6Value(ops, BlockAt(blocks, 210, n / 256), n % 256)
  }

  lemma Q6Here<F>(ops: Ops<F>, blocks: seq<bv8>, b: nat, j: nat)
    requires (b + 1) * 210 <= |blocks| && j < 256
    ensures (b * 256 + j) / 256 == b
    ensures Q6At(ops, blocks, b * 256 + j) == Q6Value(ops, BlockAt(blocks, 210, b), j)
  {
    hide Q6Value, BlockAt;
    DivModUnique(b * 256 + j, 256, b, j);
  }

  /** `dequantize_q6_k`: block by block into one buffer. */
  method DequantizeQ6K<F>(ops: Ops<F>, blocks: seq<bv8>, n: nat) returns (r: Result<seq<F>>)
    requires n / 256 * 210 <= |blocks|
    ensures r.Ok? <==> n % 256 == 0
    ensures r.Ok? ==> |r.value| == n
    ensures r.Ok? ==> forall m: nat | m < n :: m / 256 < n / 256 && r.value[m] == Q6At(ops, blocks, m)
  {
    hide LowAt, HighAt, Field, BlockAt, Q6At, Half;
    if n % 256 != 0 {
      return Err("element count not a multiple of 256");
    }
    var nb := n / 256;
    var out: seq<F> := [];
    for b := 0 to nb
      invariant |out| == b * 256
      invariant forall m: nat | m < |out| :: m / 256 < b && out[m] == Q6At(ops, blocks, m)
    {
      BlockIs(blocks, 210, b, nb);
      var blk := blocks[b * 210..b * 210 + 210];
      var d := Half(ops, blk[208], blk[209]);
      for j := 0 to 256
        invariant |out| == b * 256 + j
        invariant forall m: nat | m < |out| :: m / 256 <= b && out[m] == Q6At(ops, blocks, m)
      {
        Q6Here(ops, blocks, b, j);
        var k := j % 128;
        var lob := blk[LowAt(j)];
        var lo := if k < 64 then lob & 0x0F else lob >> 4;
        var hi := Field(blk[128 + HighAt(j)], k / 32);
        out := out + [ops.mul(ops.mul(d, ops.signed(blk[192 + j / 16])), ops.level((lo | (hi << 4)) as int - 32))];
      }
    }
    r := Ok(out);
  }

  /** Blocks packed one behind the other. */
  function PackAll(codes: seq<seq<bv8>>, scales: seq<seq<bv8>>, ds: seq<seq<bv8>>): (blocks: seq<bv8>)
    requires |codes| == |scales| == |ds|
    requires forall b | 0 <= b < |codes| :: |codes[b]| == 256 && |scales[b]| == 16 && |ds[b]| == 2
    ensures |blocks| == |codes| * 210
  {
    if codes == [] then []
    else
      var n := |codes| - 1;
      PackAll(codes[..n], scales[..n], ds[..n]) + Pack(codes[n], scales[n], ds[n])
  }

  lemma {:induction false} PackAllBlock(codes: seq<seq<bv8>>, scales: seq<seq<bv8>>, ds: seq<seq<bv8>>, b: nat)
    requires b < |codes| == |scales| == |ds|
    requires forall i | 0 <= i < |codes| :: |codes[i]| == 256 && |scales[i]| == 16 && |ds[i]| == 2
    ensures BlockAt(PackAll(codes, scales, ds), 210, b) == Pack(codes[b], scales[b], ds[b])
    decreases |codes|
  {
    hide Pack;
    var n := |codes| - 1;
    var front := PackAll(codes[..n], scales[..n], ds[..n]);
    var blocks := PackAll(codes, scales, ds);
    if b == n {
      assert blocks[n * 210..n * 210 + 210] == Pack(codes[n], scales[n], ds[n]);
    } else {
      PackAllBlock(codes[..n], scales[..n], ds[..n], b);
      assert blocks[b * 210..b * 210 + 210] == front[b * 210..b * 210 + 210];
    }
  }

  /** For every block count: a dequantized element is scale times sub-scale times the code that was packed. */
  lemma Q6RoundTrip<F>(ops: Ops<F>, codes: seq<seq<bv8>>, scales: seq<seq<bv8>>, ds: seq<seq<bv8>>, b: nat, j: nat)
    requires b < |codes| == |scales| == |ds| && j < 256
    requires forall i | 0 <= i < |codes| :: |codes[i]| == 256 && |scales[i]| == 16 && |ds[i]| == 2
    requires SixBits(codes[b])
    ensures (b * 256 + j) / 256 == b
    ensures Q6At(ops, PackAll(codes, scales, ds), b * 256 + j) ==
            ops.mul(ops.mul(Half(ops, ds[b][0], ds[b][1]), ops.signed(scales[b][j / 16])),
                    ops.level(codes[b][j] as int - 32))
  {
    hide Code, Pack, PackAll, BlockAt, Q6At, Half;
    Q6Here(ops, PackAll(codes, scales, ds), b, j);
    PackAllBlock(codes, scales, ds, b);
    CodeOfPacked(codes[b], scales[b], ds[b], j);
    PackBytes(codes[b], scales[b], ds[b]);
    var blk := Pack(codes[b], scales[b], ds[b]);
    assert blk[192..208][j / 16] == blk[192 + j / 16];
    assert blk[208..][0] == blk[208] && blk[208..][1] == blk[209];
  }

  // ---------------------------------------------------------------- Q4_0

  /** Element `i` of a block whose nibbles are split in halves. */
  function Q4Code(q: seq<bv8>, i: nat): bv8
    requires |q| == 16 && i < 32
  {
    if i < 16 then q[i] & 0x0F else q[i - 16] >> 4
  }

  function Q4Value<F>(ops: Ops<F>, blk: seq<bv8>, i: nat): F
    requires |blk| == 18 && i < 32
  {
    ops.mul(ops.level(Q4Code(blk[2..], i) as int - 8), Half(ops, blk[0], blk[1]))
  }

  lemma Q4Pair<F>(ops: Ops<F>, blk: seq<bv8>, j: nat)
    requires |blk| == 18 && j < 16
    ensures Q4Value(ops, blk, j) == ops.mul(ops.level((blk[2..][j] & 0x0F) as int - 8), Half(ops, blk[0], blk[1]))
    ensures Q4Value(ops, blk, j + 16) == ops.mul(ops.level((blk[2..][j] >> 4) as int - 8), Half(ops, blk[0], blk[1]))
  {
  }

  /** `dequantize_q4_0`: two elements of each byte, sixteen places apart. */
  method DequantizeQ40<F(0)>(ops: Ops<F>, blocks: seq<bv8>, n: nat) returns (r: Result<array<F>>)
    requires n / 32 * 18 <= |blocks|
    ensures r.Ok? <==> n % 32 == 0
    ensures r.Ok? ==> fresh(r.value) && r.value.Length == n
    ensures r.Ok? ==> forall b: nat, i: nat | b < n / 32 && i < 32 ::
              (b + 1) * 18 <= |blocks| && r.value[b * 32 + i] == Q4Value(ops, BlockAt(blocks, 18, b), i)
  {
    hide Q4Value, Q4Code, BlockAt, Half;
    if n % 32 != 0 {
      return Err("element count not a multiple of 32");
    }
    var nb := n / 32;
    var out := new F[n];
    for b := 0 to nb
      invariant forall c: nat, i: nat | c < b && i < 32 :: out[c * 32 + i] == Q4Value(ops, BlockAt(blocks, 18, c), i)
    {
      BlockIs(blocks, 18, b, nb);
      var blk := blocks[b * 18..b * 18 + 18];
      var d := Half(ops, blk[0], blk[1]);
      var q := blk[2..];
      for j := 0 to 16
        invariant forall c: nat, i: nat | c < b && i < 32 :: out[c * 32 + i] == Q4Value(ops, BlockAt(blocks, 18, c), i)
        invariant forall i: nat | i < 32 && i % 16 < j :: out[b * 32 + i] == Q4Value(ops, blk, i)
      {
        Q4Pair(ops, blk, j);
        out[b * 32 + j] := ops.mul(ops.level((q[j] & 0x0F) as int - 8), d);
        out[b * 32 + j + 16] := ops.mul(ops.level((q[j] >> 4) as int - 8), d);
      }
    }
    r := Ok(out);
  }

  /** The device form: all nibbles, then all scales. */
  datatype Packed<F> = Packed(nibbles: seq<bv8>, scales: seq<F>)

  /** `repack_q4_0`. */
  method RepackQ40<F>(ops: Ops<F>, blocks: seq<bv8>, n: nat) returns (r: Result<Packed<F>>)
    requires n / 32 * 18 <= |blocks|
    ensures r.Ok? <==> n % 32 == 0
    ensures r.Ok? ==> |r.value.nibbles| == n / 32 * 16 && |r.value.scales| == n / 32
    ensures r.Ok? ==> forall b: nat | b < n / 32 ::
              && (b + 1) * 18 <= |blocks|
              && r.value.scales[b] == Half(ops, BlockAt(blocks, 18, b)[0], BlockAt(blocks, 18, b)[1])
              && BlockAt(r.value.nibbles, 16, b) == BlockAt(blocks, 18, b)[2..]
  {
    if n % 32 != 0 {
      return Err("element count not a multiple of 32");
    }
    var nibbles: seq<bv8>, scales: seq<F> := [], [];
    for b := 0 to n / 32
      invariant |nibbles| == b * 16 && |scales| == b
      invariant forall c: nat | c < b ::
                  && scales[c] == Half(ops, BlockAt(blocks, 18, c)[0], BlockAt(blocks, 18, c)[1])
                  && BlockAt(nibbles, 16, c) == BlockAt(blocks, 18, c)[2..]
    {
      var blk := blocks[b * 18..b * 18 + 18];
      ghost var before := nibbles;
      scales := scales + [Half(ops, blk[0], blk[1])];
      nibbles := nibbles + blk[2..];
      forall c: nat | c <= b
        ensures BlockAt(nibbles, 16, c) == if c < b then BlockAt(before, 16, c) else blk[2..]
      {
      }
    }
    r := Ok(Packed(nibbles, scales));
  }

  /** Reading the device form gives the values the host dequantizer gives. */
  lemma RepackKeepsValues<F>(ops: Ops<F>, blocks: seq<bv8>, p: Packed<F>, b: nat, i: nat)
    requires (b + 1) * 18 <= |blocks| && (b + 1) * 16 <= |p.nibbles| && b < |p.scales| && i < 32
    requires p.scales[b] == Half(ops, BlockAt(blocks, 18, b)[0], BlockAt(blocks, 18, b)[1])
    requires BlockAt(p.nibbles, 16, b) == BlockAt(blocks, 18, b)[2..]
    ensures ops.mul(ops.level(Q4Code(BlockAt(p.nibbles, 16, b), i) as int - 8), p.scales[b]) ==
            Q4Value(ops, BlockAt(blocks, 18, b), i)
  {
  }

  function Nibbles(lo: bv8, hi: bv8): bv8 {
    (lo & 15) | ((hi & 15) << 4)
  }

  /** Sixteen bytes from thirty-two codes. */
  function PackQ4(codes: seq<bv8>): (q: seq<bv8>)
    requires |codes| == 32
    ensures |q| == 16
  {
    seq(16, j requires 0 <= j < 16 => Nibbles(codes[j], codes[j + 16]))
  }

  lemma Q4RoundTrip(codes: seq<bv8>, i: nat)
    requires |codes| == 32 && i < 32 && codes[i] < 16
    ensures Q4Code(PackQ4(codes), i) == codes[i]
  {
    var j := i % 16;
    NibbleBits(codes[j], codes[j + 16]);
    LowBits(codes[i]);
  }

  lemma LowBits(c: bv8)
    requires c < 16
    ensures c & 15 == c
  {
  }

  lemma Q4PackOfCodes(q: seq<bv8>)
    requires |q| == 16
    ensures PackQ4(seq(32, i requires 0 <= i < 32 => Q4Code(q, i))) == q
  {
    forall j | 0 <= j < 16
      ensures ((q[j] & 0x0F) & 15) | (((q[j] >> 4) & 15) << 4) == q[j]
    {
      ByteOfNibbles(q[j], 0, 0);
    }
  }
}
