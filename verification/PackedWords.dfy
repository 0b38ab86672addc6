/** Nibbles and signed bytes packed into 32-bit words, and the byte dot product on them. */
module PackedWords {
  import opened Numbers

  /** Four consecutive bytes loaded as one little-endian word. */
  function Word(b0: bv8, b1: bv8, b2: bv8, b3: bv8): bv32 {
    (b0 as bv32) | ((b1 as bv32) << 8) | ((b2 as bv32) << 16) | ((b3 as bv32) << 24)
  }

  function ByteOf(w: bv32, i: nat): bv8
    requires i < 4
  {
    if i == 0 then (w & 0xFF) as bv8 else if i == 1 then ((w >> 8) & 0xFF) as bv8
    else if i == 2 then ((w >> 16) & 0xFF) as bv8 else ((w >> 24) & 0xFF) as bv8
  }

  lemma WordBytes(b0: bv8, b1: bv8, b2: bv8, b3: bv8)
    ensures var w := Word(b0, b1, b2, b3);
            ByteOf(w, 0) == b0 && ByteOf(w, 1) == b1 && ByteOf(w, 2) == b2 && ByteOf(w, 3) == b3
  {
  }

  /** Nibble `i` of a word, still biased. */
  function NibbleOf(w: bv32, i: nat): bv8
    requires i < 8
  {
    if i == 0 then (w & 0xF) as bv8 else if i == 1 then ((w >> 4) & 0xF) as bv8
    else if i == 2 then ((w >> 8) & 0xF) as bv8 else if i == 3 then ((w >> 12) & 0xF) as bv8
    else if i == 4 then ((w >> 16) & 0xF) as bv8 else if i == 5 then ((w >> 20) & 0xF) as bv8
    else if i == 6 then ((w >> 24) & 0xF) as bv8 else ((w >> 28) & 0xF) as bv8
  }

  /** `nib`: recentred to [-8, 7]. */
  function Nib(w: bv32, i: nat): int
    requires i < 8
  {
    Centred(NibbleOf(w, i))
  }

  function Centred(h: bv8): int {
    h as int - 8
  }

  /** Nibble `i` of a byte: the even one is the low half. */
  function HalfByte(b: bv8, i: nat): bv8 {
    if i % 2 == 0 then b & 0xF else b >> 4
  }

  function Weight(b: bv8, i: nat): int {
    Centred(HalfByte(b, i))
  }

  lemma LowHalves(b0: bv8, b1: bv8, b2: bv8, b3: bv8)
    ensures var w := Word(b0, b1, b2, b3);
            && NibbleOf(w, 0) == HalfByte(b0, 0) && NibbleOf(w, 1) == HalfByte(b0, 1)
            && NibbleOf(w, 2) == HalfByte(b1, 2) && NibbleOf(w, 3) == HalfByte(b1, 3)
  {
  }

  lemma HighHalves(b0: bv8, b1: bv8, b2: bv8, b3: bv8)
    ensures var w := Word(b0, b1, b2, b3);
            && NibbleOf(w, 4) == HalfByte(b2, 4) && NibbleOf(w, 5) == HalfByte(b2, 5)
            && NibbleOf(w, 6) == HalfByte(b3, 6) && NibbleOf(w, 7) == HalfByte(b3, 7)
  {
  }

  /** Unpacking a loaded word sees the nibbles in the order the sequential model reads them from memory. */
  lemma NibIsWeight(b: seq<bv8>, i: nat)
    requires |b| == 4 && i < 8
    ensures Nib(Word(b[0], b[1], b[2], b[3]), i) == Weight(b[i / 2], i)
  {
    hide Word, NibbleOf, Centred, HalfByte;
    LowHalves(b[0], b[1], b[2], b[3]);
    HighHalves(b[0], b[1], b[2], b[3]);
  }

  function Digit(n: nat): (d: bv8)
    requires n < 16
    ensures d < 16 && d as int == n
  {
    n as bv8
  }

  lemma Digits(h: bv8, l: bv8)
    requires h < 16 && l < 16
    ensures ((h << 4) | l) as int == 16 * (h as int) + l as int
  {
  }

  /** The low byte of an integer in two's complement, put together from its two hexadecimal digits. */
  function Low8(a: int): (b: bv8)
    ensures b as int == a % 256
  {
    var n := a % 256;
    Digits(Digit(n / 16), Digit(n % 16));
    (Digit(n / 16) << 4) | Digit(n % 16)
  }

  function Signed8(b: bv8): int {
    Recentred(b as int)
  }

  function Recentred(n: int): int {
    if n >= 128 then n - 256 else n
  }

  lemma RecentredBack(a: int)
    requires -128 <= a <= 127
    ensures Recentred(a % 256) == a
  {
    DivModUnique(a + 256, 256, (a + 256) / 256, (a + 256) % 256);
  }

  lemma SignedBack(a: int)
    requires -128 <= a <= 127
    ensures Signed8(Low8(a)) == a
  {
    hide Recentred;
    RecentredBack(a);
  }

  /** `pack4`: four small integers as the bytes of one word. */
  function Pack4(a: int, b: int, c: int, d: int): bv32 {
    Word(Low8(a), Low8(b), Low8(c), Low8(d))
  }

  /** `__dp4a`: signed byte products added to an accumulator. */
  function Dp4a(x: bv32, y: bv32, s: int): int {
    Wrap32(s + Signed8(ByteOf(x, 0)) * Signed8(ByteOf(y, 0)) + Signed8(ByteOf(x, 1)) * Signed8(ByteOf(y, 1))
             + Signed8(ByteOf(x, 2)) * Signed8(ByteOf(y, 2)) + Signed8(ByteOf(x, 3)) * Signed8(ByteOf(y, 3)))
  }

  predicate Int8(a: int) {
    -128 <= a <= 127
  }

  lemma Pack4Bytes(a: int, b: int, c: int, d: int)
    requires Int8(a) && Int8(b) && Int8(c) && Int8(d)
    ensures var w := Pack4(a, b, c, d);
            && Signed8(ByteOf(w, 0)) == a && Signed8(ByteOf(w, 1)) == b
            && Signed8(ByteOf(w, 2)) == c && Signed8(ByteOf(w, 3)) == d
  {
    hide Word, ByteOf, Low8, Signed8;
    WordBytes(Low8(a), Low8(b), Low8(c), Low8(d));
    SignedBack(a);
    SignedBack(b);
    SignedBack(c);
    SignedBack(d);
  }

  lemma Dp4aPacked(a: int, b: int, c: int, d: int, x: int, y: int, z: int, t: int, s: int)
    requires Int8(a) && Int8(b) && Int8(c) && Int8(d) && Int8(x) && Int8(y) && Int8(z) && Int8(t)
    ensures Dp4a(Pack4(a, b, c, d), Pack4(x, y, z, t), s) == Wrap32(s + a * x + b * y + c * z + d * t)
  {
    hide Pack4, Signed8, ByteOf, Wrap32, Int8;
    Pack4Bytes(a, b, c, d);
    Pack4Bytes(x, y, z, t);
  }
}
