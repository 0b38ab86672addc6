/** The llama.cpp reference file: header checks, 64-bit size arithmetic, and where each record lies. */
module LogitsFile {
  import opened Common
  import opened Numbers
  import G = GgufFormat

  const MAGIC: Bytes := [0x5F, 0x6C, 0x6F, 0x67, 0x69, 0x74, 0x73, 0x5F]

  /** `read_i32`. */
  function I32(b: Bytes, at: nat): int
    requires at + 4 <= |b|
  {
    G.Signed(G.FromLE(b[at..at + 4]), 4)
  }

  datatype Shape = Shape(ctx: int, vocab: int, chunks: int)

  predicate Plausible(h: Shape) {
    4 <= h.ctx <= 0x10_0000 && 2 <= h.vocab <= 0x40_0000 && 1 <= h.chunks <= 0x10_0000
  }

  function RecordsPerChunk(h: Shape): (n: nat)
    requires Plausible(h)
    ensures 1 <= n < 0x8_0000
  {
    h.ctx - 1 - h.ctx / 2
  }

  /** 16-bit units of a record: the codes, padded to an even number, after two floats. */
  function Units(h: Shape): (n: nat)
    requires Plausible(h)
    ensures h.vocab + 4 <= n <= 0x40_0004
  {
    2 * ((h.vocab + 1) / 2) + 4
  }

  function RecordBytes(h: Shape): (n: nat)
    requires Plausible(h)
    ensures n > 0
  {
    Units(h) * 2
  }

  function TokenCount(h: Shape): nat
    requires Plausible(h)
  {
    MulLe(0, h.chunks, h.ctx);
    h.chunks * h.ctx
  }

  function RecordsOffset(h: Shape): nat
    requires Plausible(h)
  {
    20 + TokenCount(h) * 4
  }

  function Records(h: Shape): nat
    requires Plausible(h)
  {
    MulLe(0, h.chunks, RecordsPerChunk(h));
    h.chunks * RecordsPerChunk(h)
  }

  /** The size the header implies. */
  function Expected(h: Shape): nat
    requires Plausible(h)
  {
    MulLe(0, Records(h), RecordBytes(h));
    RecordsOffset(h) + Records(h) * RecordBytes(h)
  }

  lemma RecordsSmall(h: Shape)
    requires Plausible(h)
    ensures TokenCount(h) <= 0x100_0000_0000 && Records(h) < 0x80_0000_0000
  {
    MulLe(h.chunks, 0x10_0000, h.ctx);
    MulLe(h.ctx, 0x10_0000, 0x10_0000);
    MulLe(h.chunks, 0x10_0000, RecordsPerChunk(h));
    MulLe(RecordsPerChunk(h), 0x7_FFFF, 0x10_0000);
  }

  /** Whatever the header says, the size expression stays below 2^63. */
  lemma ExpectedSmall(h: Shape)
    requires Plausible(h)
    ensures Expected(h) < 0x8000_0000_0000_0000
    ensures Records(h) * Units(h) <= Records(h) * RecordBytes(h) < 0x8000_0000_0000_0000
  {
    hide Records, TokenCount, Units;
    RecordsSmall(h);
    MulLe(Records(h), 0x7F_FFFF_FFFF, RecordBytes(h));
    MulLe(RecordBytes(h), 0x80_0008, 0x7F_FFFF_FFFF);
    MulLe(Units(h), RecordBytes(h), Records(h));
  }

  /** The size as the parser computes it, in wrapping arithmetic: nothing wraps. */
  method ExpectedSize(h: Shape) returns (n: nat)
    requires Plausible(h)
    ensures n == Expected(h)
  {
    hide TokenCount, Records, RecordsPerChunk, Units, Mul64, Add64;
    NoWrap(h);
    SizesAre(h);
    var tokens := Mul64(h.chunks, h.ctx);
    var nv := 2 * ((h.vocab + 1) / 2) + 4;
    n := Add64(Add64(20, Mul64(tokens, 4)), Mul64(Mul64(Mul64(h.chunks, h.ctx - 1 - h.ctx / 2), nv), 2));
  }

  lemma SizesAre(h: Shape)
    requires Plausible(h)
    ensures Units(h) == 2 * ((h.vocab + 1) / 2) + 4 && RecordsPerChunk(h) == h.ctx - 1 - h.ctx / 2
  {
  }

  lemma Small64(a: nat, b: nat)
    ensures a * b < TWO64 ==> Mul64(a, b) == a * b
    ensures a + b < TWO64 ==> Add64(a, b) == a + b
  {
  }

  lemma NoWrap(h: Shape)
    requires Plausible(h)
    ensures Mul64(h.chunks, h.ctx) == TokenCount(h)
    ensures Mul64(TokenCount(h), 4) == TokenCount(h) * 4
    ensures Mul64(h.chunks, RecordsPerChunk(h)) == Records(h)
    ensures 0 <= Records(h) * Units(h)
    ensures Mul64(Records(h), Units(h)) == Records(h) * Units(h)
    ensures Mul64(Records(h) * Units(h), 2) == Records(h) * RecordBytes(h) >= 0
    ensures Add64(20, TokenCount(h) * 4) == RecordsOffset(h)
    ensures Add64(RecordsOffset(h), Records(h) * RecordBytes(h)) == Expected(h)
  {
    hide RecordsPerChunk, Units, Mul64, Add64;
    RecordsSmall(h);
    ExpectedSmall(h);
    Small64(h.chunks, h.ctx);
    Small64(TokenCount(h), 4);
    Small64(h.chunks, RecordsPerChunk(h));
    MulLe(0, Records(h), Units(h));
    MulLe(0, Records(h), RecordBytes(h));
    Small64(Records(h), Units(h));
    assert Records(h) * Units(h) * 2 == Records(h) * RecordBytes(h);
    Small64(Records(h) * Units(h), 2);
    Small64(20, TokenCount(h) * 4);
    Small64(RecordsOffset(h), Records(h) * RecordBytes(h));
  }

  // ---------------------------------------------------------------- parsing

  datatype Reference = Reference(shape: Shape, tokens: seq<int>, recordsOffset: nat, bytes: Bytes)

  function ShapeOf(b: Bytes): Shape
    requires |b| >= 20
  {
    Shape(I32(b, 8), I32(b, 12), I32(b, 16))
  }

  predicate TokenOk(b: Bytes, h: Shape, i: nat)
    requires 24 + 4 * i <= |b|
  {
    0 <= I32(b, 20 + 4 * i) < h.vocab
  }

  predicate TokensOk(b: Bytes, h: Shape, n: nat)
    requires 20 + 4 * n <= |b|
  {
    forall i: nat | i < n :: TokenOk(b, h, i)
  }

  lemma RoomForTokens(h: Shape)
    requires Plausible(h)
    ensures 20 + 4 * TokenCount(h) <= Expected(h)
  {
  }

  /** Everything the parser demands. */
  predicate Accepted(b: Bytes) {
    && |b| >= 20 && b[..8] == MAGIC && Plausible(ShapeOf(b)) && |b| == Expected(ShapeOf(b))
    && (RoomForTokens(ShapeOf(b)); TokensOk(b, ShapeOf(b), TokenCount(ShapeOf(b))))
  }

  method Parse(b: Bytes) returns (r: Result<Reference>)
    ensures r.Ok? <==> Accepted(b)
    ensures r.Ok? ==>
              && r.value.shape == ShapeOf(b) && r.value.bytes == b && r.value.recordsOffset == RecordsOffset(ShapeOf(b))
              && |r.value.tokens| == TokenCount(ShapeOf(b))
              && forall i: nat | i < |r.value.tokens| :: 24 + 4 * i <= |b| && r.value.tokens[i] == I32(b, 20 + 4 * i)
  {
    hide I32, TokenCount, Records;
    if |b| < 20 || b[..8] != MAGIC {
      return Err("not a llama.cpp logits file");
    }
    var h := Shape(I32(b, 8), I32(b, 12), I32(b, 16));
    if h.ctx < 4 || h.ctx > 0x10_0000 { return Err("implausible n_ctx"); }
    if h.vocab < 2 || h.vocab > 0x40_0000 { return Err("implausible n_vocab"); }
    if h.chunks < 1 || h.chunks > 0x10_0000 { return Err("implausible n_chunk"); }
    var expected := ExpectedSize(h);
    if |b| != expected {
      return Err("the header implies another size");
    }
    RoomForTokens(h);
    var tokens: seq<int> := [];
    var n := TokenCount(h);
    for i := 0 to n
      invariant |tokens| == i && TokensOk(b, h, i)
      invariant forall j: nat | j < i :: tokens[j] == I32(b, 20 + 4 * j)
    {
      var t := I32(b, 20 + 4 * i);
      if t < 0 || t >= h.vocab {
        assert !TokenOk(b, h, i);
        return Err("outside the vocabulary");
      }
      tokens := tokens + [t];
    }
    r := Ok(Reference(h, tokens, RecordsOffset(h), b));
  }

  /** What a parsed reference satisfies. */
  ghost predicate Parsed(r: Reference) {
    && Plausible(r.shape) && |r.bytes| == Expected(r.shape) && r.recordsOffset == RecordsOffset(r.shape)
    && |r.tokens| == TokenCount(r.shape)
  }

  // ---------------------------------------------------------------- tiling

  function RecordNumber(h: Shape, chunk: nat, record: nat): nat
    requires Plausible(h)
  {
    MulLe(0, chunk, RecordsPerChunk(h));
    chunk * RecordsPerChunk(h) + record
  }

  /** First byte of a record. */
  function RecordAt(h: Shape, chunk: nat, record: nat): nat
    requires Plausible(h)
  {
    MulLe(0, RecordNumber(h, chunk, record), RecordBytes(h));
    RecordsOffset(h) + RecordNumber(h, chunk, record) * RecordBytes(h)
  }

  predicate IsRecord(h: Shape, chunk: int, record: int)
    requires Plausible(h)
  {
    0 <= chunk < h.chunks && 0 <= record < RecordsPerChunk(h)
  }

  /** Position `p` belongs to the record. */
  predicate Owns(h: Shape, chunk: int, record: int, p: int)
    requires Plausible(h) && IsRecord(h, chunk, record)
  {
    RecordAt(h, chunk, record) <= p < RecordAt(h, chunk, record) + RecordBytes(h)
  }

  lemma RecordIndex(h: Shape, chunk: nat, record: nat)
    requires Plausible(h) && IsRecord(h, chunk, record)
    ensures RecordNumber(h, chunk, record) < Records(h)
    ensures RecordNumber(h, chunk, record) / RecordsPerChunk(h) == chunk
    ensures RecordNumber(h, chunk, record) % RecordsPerChunk(h) == record
  {
    hide RecordsPerChunk;
    BlockIndex(chunk, h.chunks, record, RecordsPerChunk(h));
  }

  /** A position determines the record that owns it. */
  lemma OwnerUnique(h: Shape, chunk: nat, record: nat, p: nat)
    requires Plausible(h) && IsRecord(h, chunk, record) && Owns(h, chunk, record, p)
    ensures p >= RecordsOffset(h)
    ensures (p - RecordsOffset(h)) / RecordBytes(h) == RecordNumber(h, chunk, record)
  {
    hide RecordsPerChunk, RecordBytes, RecordsOffset, Records, RecordNumber;
    RecordIndex(h, chunk, record);
    var k := RecordNumber(h, chunk, record);
    MulLe(0, k, RecordBytes(h));
    DivModUnique(p - RecordsOffset(h), RecordBytes(h), k, p - RecordAt(h, chunk, record));
  }

  /** Records are disjoint. */
  lemma RecordsDisjoint(h: Shape, c: nat, r: nat, d: nat, s: nat, p: nat)
    requires Plausible(h) && IsRecord(h, c, r) && IsRecord(h, d, s)
    requires Owns(h, c, r, p) && Owns(h, d, s, p)
    ensures c == d && r == s
  {
    hide RecordsPerChunk, RecordBytes, RecordsOffset, Owns, Records, RecordNumber;
    OwnerUnique(h, c, r, p);
    OwnerUnique(h, d, s, p);
    RecordIndex(h, c, r);
    RecordIndex(h, d, s);
  }

  /** Records lie in the file and cover it from the records offset to its last byte. */
  lemma RecordsCover(h: Shape, p: nat)
    requires Plausible(h) && RecordsOffset(h) <= p < Expected(h)
    ensures exists c, r :: IsRecord(h, c, r) && Owns(h, c, r, p)
  {
    hide RecordsOffset, RecordsPerChunk, RecordBytes, Records, RecordNumber, Owns, Expected;
    var k := NumberAt(h, p);
    var c, r := SplitNumber(h, k);
    OwnsAt(h, c, r, k, p);
  }

  /** The record number a position falls into. */
  lemma NumberAt(h: Shape, p: nat) returns (k: nat)
    requires Plausible(h) && RecordsOffset(h) <= p < Expected(h)
    ensures k < Records(h)
    ensures 0 <= k * RecordBytes(h) <= p - RecordsOffset(h) < k * RecordBytes(h) + RecordBytes(h)
  {
    hide RecordsOffset, RecordBytes, Records;
    var q := p - RecordsOffset(h);
    QuotientBelow(q, RecordBytes(h), Records(h));
    k := q / RecordBytes(h);
  }

  lemma SplitNumber(h: Shape, k: nat) returns (c: nat, r: nat)
    requires Plausible(h) && k < Records(h)
    ensures IsRecord(h, c, r) && RecordNumber(h, c, r) == k
  {
    hide RecordsPerChunk;
    QuotientBelow(k, RecordsPerChunk(h), h.chunks);
    c, r := k / RecordsPerChunk(h), k % RecordsPerChunk(h);
  }

  lemma OwnsAt(h: Shape, c: nat, r: nat, k: nat, p: nat)
    requires Plausible(h) && IsRecord(h, c, r) && RecordNumber(h, c, r) == k
    requires 0 <= k * RecordBytes(h) <= p - RecordsOffset(h) < k * RecordBytes(h) + RecordBytes(h)
    ensures Owns(h, c, r, p)
  {
    hide RecordNumber, RecordBytes, RecordsOffset;
  }

  lemma QuotientBelow(q: nat, d: nat, m: nat)
    requires q < m * d
    ensures d > 0
    ensures q / d < m && q == q / d * d + q % d && q / d * d <= q < q / d * d + d
  {
    MulLe(d, 0, m);
    assert q == q / d * d + q % d;
    MulLe(m, q / d, d);
  }

  lemma RecordInside(h: Shape, chunk: nat, record: nat)
    requires Plausible(h) && IsRecord(h, chunk, record)
    ensures RecordsOffset(h) <= RecordAt(h, chunk, record)
    ensures RecordAt(h, chunk, record) + RecordBytes(h) <= Expected(h)
  {
    hide RecordsPerChunk, RecordBytes, RecordsOffset, Records, RecordNumber;
    RecordIndex(h, chunk, record);
    var k := RecordNumber(h, chunk, record);
    MulLe(0, k, RecordBytes(h));
    MulLe(k + 1, Records(h), RecordBytes(h));
  }

  /** Every byte range `log_probs` reads for a record stays inside that record. */
  lemma ReadsInside(h: Shape, chunk: nat, record: nat, i: nat)
    requires Plausible(h) && IsRecord(h, chunk, record) && i < h.vocab
    ensures forall p | RecordAt(h, chunk, record) <= p < RecordAt(h, chunk, record) + 8 :: Owns(h, chunk, record, p)
    ensures var at := RecordAt(h, chunk, record) + 8 + 2 * i;
            Owns(h, chunk, record, at) && Owns(h, chunk, record, at + 1)
  {
    hide RecordAt;
  }

  /** Records follow each other without a gap, chunk by chunk, from the records offset on; each takes two floats and
      one code per vocabulary entry, rounded up to whole 32-bit words. */
  lemma RecordsFollow(h: Shape, chunk: nat, record: nat)
    requires Plausible(h) && IsRecord(h, chunk, record)
    ensures RecordAt(h, 0, 0) == 20 + 4 * (h.chunks * h.ctx)
    ensures RecordBytes(h) == 8 + 2 * h.vocab + 2 * (h.vocab % 2)
    ensures record + 1 < RecordsPerChunk(h) ==>
              RecordAt(h, chunk, record + 1) == RecordAt(h, chunk, record) + RecordBytes(h)
    ensures record + 1 == RecordsPerChunk(h) ==>
              RecordAt(h, chunk + 1, 0) == RecordAt(h, chunk, record) + RecordBytes(h)
    ensures RecordsPerChunk(h) + h.ctx / 2 + 1 == h.ctx
  {
    hide Plausible, Units, RecordsPerChunk;
    SizesAre(h);
    var n, size := RecordNumber(h, chunk, record), RecordBytes(h);
    NextRecord(n, size);
    assert (chunk + 1) * RecordsPerChunk(h) == chunk * RecordsPerChunk(h) + RecordsPerChunk(h);
  }

  lemma NextRecord(n: nat, size: nat)
    ensures (n + 1) * size == n * size + size
  {
  }

  // ---------------------------------------------------------------- access

  /** `log_probs`: `line(scale, code, floor)` stands for `scale * code + floor` on the raw bits. */
  method LogProbs<F>(line: (nat, nat, nat) -> F, ref: Reference, chunk: int, record: int) returns (r: Result<seq<F>>)
    requires Parsed(ref)
    ensures r.Ok? <==> IsRecord(ref.shape, chunk, record)
    ensures r.Ok? ==> |r.value| == ref.shape.vocab
    ensures r.Ok? ==>
              var at := RecordAt(ref.shape, chunk, record);
              forall i: nat | i < ref.shape.vocab ::
                && at + 10 + 2 * i <= |ref.bytes|
                && r.value[i] == line(G.FromLE(ref.bytes[at..at + 4]),
                                      G.FromLE(ref.bytes[at + 8 + 2 * i..at + 10 + 2 * i]),
                                      G.FromLE(ref.bytes[at + 4..at + 8]))
  {
    hide RecordsOffset, Records, G.FromLE;
    var h := ref.shape;
    if chunk < 0 || chunk >= h.chunks || record < 0 || record >= RecordsPerChunk(h) {
      return Err("record out of range");
    }
    RecordInside(h, chunk, record);
    var nv := 2 * ((h.vocab + 1) / 2) + 4;
    MulLe(0, chunk, RecordsPerChunk(h));
    var at := ref.recordsOffset + (chunk * RecordsPerChunk(h) + record) * (nv * 2);
    var scale, floor := G.FromLE(ref.bytes[at..at + 4]), G.FromLE(ref.bytes[at + 4..at + 8]);
    var out: seq<F> := [];
    for i := 0 to h.vocab
      invariant |out| == i
      invariant forall j: nat | j < i ::
                  out[j] == line(scale, G.FromLE(ref.bytes[at + 8 + 2 * j..at + 10 + 2 * j]), floor)
    {
      var q := G.FromLE(ref.bytes[at + 8 + 2 * i..at + 10 + 2 * i]);
      out := out + [line(scale, q, floor)];
    }
    r := Ok(out);
  }

  lemma ChunkRoom(h: Shape, chunk: nat)
    requires Plausible(h) && chunk < h.chunks
    ensures 0 <= chunk * h.ctx && (chunk + 1) * h.ctx == chunk * h.ctx + h.ctx <= TokenCount(h)
  {
    MulLe(0, chunk, h.ctx);
    MulLe(chunk + 1, h.chunks, h.ctx);
  }

  /** `chunk_input`: the tokens of one chunk, the first replaced. */
  method ChunkInput(ref: Reference, chunk: int, bos: int) returns (r: Result<seq<int>>)
    requires Parsed(ref)
    ensures r.Ok? <==> 0 <= chunk < ref.shape.chunks
    ensures r.Ok? ==> |r.value| == ref.shape.ctx && r.value[0] == bos
    ensures r.Ok? ==> forall i: nat | 0 < i < ref.shape.ctx ::
              0 <= chunk * ref.shape.ctx + i < |ref.tokens| && r.value[i] == ref.tokens[chunk * ref.shape.ctx + i]
  {
    hide TokenCount;
    var h := ref.shape;
    if chunk < 0 || chunk >= h.chunks {
      return Err("chunk out of range");
    }
    ChunkRoom(h, chunk);
    var t := ref.tokens[chunk * h.ctx..(chunk + 1) * h.ctx];
    r := Ok(t[0 := bos]);
  }
}
