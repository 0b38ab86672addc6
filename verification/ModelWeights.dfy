/** The model the reference pass builds from an accepted file, and the whole path from the bytes to its logits. */
module ModelWeights {
  import opened Common
  import opened Numbers
  import opened GgufFormat
  import opened ModelConfig
  import opened ModelBounds
  import PW = PackedWords
  import Q = Quant
  import R = Reference
  import FP = ForwardPass

  // ---------------------------------------------------------------- decoding tensors

  /** The block codecs' operations, and a float from its four bytes. */
  datatype Decoder<!F> = Decoder(ops: Q.Ops<F>, single: (Byte, Byte, Byte, Byte) -> F)

  /** Bytes as the block codecs take them. */
  function BitsOf(b: Byte): (r: bv8)
    ensures r as int == b
  {
    hide PW.Low8;
    PW.Low8(b)
  }

  function Bits(b: Bytes): (r: seq<bv8>)
    ensures |r| == |b| && forall i | 0 <= i < |b| :: r[i] as int == b[i]
  {
    hide BitsOf;
    seq(|b|, i requires 0 <= i < |b| => BitsOf(b[i]))
  }

  /** `size` bytes reach as far as element `i`. */
  predicate InReach(typ: nat, size: nat, i: nat) {
    if typ == F32 then 4 * i + 4 <= size
    else if typ == Q4_0 then (i / 32 + 1) * 18 <= size
    else (i / 256 + 1) * 210 <= size
  }

  lemma BytesReach(typ: nat, n: nat, i: nat)
    requires i < n && (typ == Q4_0 ==> n % 32 == 0) && (typ != F32 && typ != Q4_0 ==> n % 256 == 0)
    ensures InReach(typ, BytesRead(typ, n), i)
  {
    if typ == Q4_0 {
      BlockBelow(n, 32, i);
    } else if typ != F32 {
      BlockBelow(n, 256, i);
    }
  }

  lemma BlockBelow(n: nat, d: nat, i: nat)
    requires d > 0 && i < n && n % d == 0
    ensures i / d + 1 <= n / d
  {
    assert n == n / d * d && i == i / d * d + i % d;
    MulLe(n / d, i / d, d);
  }

  function Element<F>(dec: Decoder<F>, typ: nat, data: Bytes, i: nat): F
    requires InReach(typ, |data|, i)
  {
    if typ == F32 then dec.single(data[4 * i], data[4 * i + 1], data[4 * i + 2], data[4 * i + 3])
    else if typ == Q4_0 then Q.Q4Value(dec.ops, Q.BlockAt(Bits(data), 18, i / 32), i % 32)
    else Q.Q6At(dec.ops, Bits(data), i)
  }

  /** A type the loader knows. */
  predicate Loadable(typ: nat) {
    typ == F32 || typ == Q4_0 || typ == Q6_K
  }

  lemma ElementReach(b: Bytes, f: File, t: Tensor, i: nat)
    requires Parsed(b) == Ok(f) && t in f.tensors && Loadable(t.typ) && i < Product(t.dims)
    ensures InReach(t.typ, |Data(b, f, t)|, i)
  {
    hide Parsed, InReach, Product;
    ReadsExactly(b, f, t);
    BytesReach(t.typ, Product(t.dims), i);
  }

  /** A tensor as the loader returns it. */
  function LoadDense<F>(dec: Decoder<F>, b: Bytes, f: File, t: Tensor): R.Dense<F>
    requires Parsed(b) == Ok(f) && t in f.tensors && 0 < |t.dims| <= 2 && Loadable(t.typ)
  {
    hide Parsed, Product, InReach, Element, Data;
    R.Dense(seq(Product(t.dims), i requires 0 <= i < Product(t.dims) =>
                  ElementReach(b, f, t, i); Element(dec, t.typ, Data(b, f, t), i)),
            if |t.dims| > 1 then t.dims[1] else 1, t.dims[0])
  }

  /** The dequantizers on the bytes of a whole tensor: they are given exactly what they read, so they never fail. */
  method DecodeAll<F(0)>(dec: Decoder<F>, typ: nat, data: Bytes, n: nat) returns (w: seq<F>)
    requires Loadable(typ) && |data| == BytesRead(typ, n)
    requires (typ == Q4_0 ==> n % 32 == 0) && (typ == Q6_K ==> n % 256 == 0)
    ensures |w| == n && forall i: nat | i < n :: InReach(typ, |data|, i) && w[i] == Element(dec, typ, data, i)
  {
    if typ == F32 {
      w := DecodeSingles(dec, data, n);
    } else if typ == Q4_0 {
      w := DecodeQ4(dec, data, n);
    } else {
      w := DecodeQ6(dec, data, n);
    }
  }

  method DecodeSingles<F>(dec: Decoder<F>, data: Bytes, n: nat) returns (w: seq<F>)
    requires |data| == 4 * n
    ensures |w| == n && forall i: nat | i < n :: w[i] == Element(dec, F32, data, i)
  {
    w := [];
    for i := 0 to n
      invariant |w| == i && forall j: nat | j < i :: w[j] == Element(dec, F32, data, j)
    {
      w := w + [dec.single(data[4 * i], data[4 * i + 1], data[4 * i + 2], data[4 * i + 3])];
    }
  }

  method DecodeQ4<F(0)>(dec: Decoder<F>, data: Bytes, n: nat) returns (w: seq<F>)
    requires n % 32 == 0 && |data| == n / 32 * 18
    ensures |w| == n && forall i: nat | i < n :: InReach(Q4_0, |data|, i) && w[i] == Element(dec, Q4_0, data, i)
  {
    hide Q.Q4Value, Q.BlockAt, Bits;
    BitsLength(data);
    var r := Q.DequantizeQ40(dec.ops, Bits(data), n);
    w := r.value[..];
    forall i: nat | i < n
      ensures InReach(Q4_0, |data|, i) && w[i] == Element(dec, Q4_0, data, i)
    {
      BytesReach(Q4_0, n, i);
      BlockOf(i, 32);
      assert r.value[i / 32 * 32 + i % 32] == Q.Q4Value(dec.ops, Q.BlockAt(Bits(data), 18, i / 32), i % 32);
    }
  }

  lemma BitsLength(data: Bytes)
    ensures |Bits(data)| == |data|
  {
  }

  lemma BlockOf(i: nat, d: nat)
    requires d > 0
    ensures i == i / d * d + i % d && i % d < d
  {
  }

  method DecodeQ6<F>(dec: Decoder<F>, data: Bytes, n: nat) returns (w: seq<F>)
    requires n % 256 == 0 && |data| == n / 256 * 210
    ensures |w| == n && forall i: nat | i < n :: InReach(Q6_K, |data|, i) && w[i] == Element(dec, Q6_K, data, i)
  {
    hide Q.Q6At, Bits;
    BitsLength(data);
    var r := Q.DequantizeQ6K(dec.ops, Bits(data), n);
    w := r.value;
    forall i: nat | i < n
      ensures InReach(Q6_K, |data|, i)
    {
      BytesReach(Q6_K, n, i);
    }
  }

  /** `load`: an unknown type is its only error, whatever accepted file the tensor comes from. */
  method LoadTensor<F(0)>(dec: Decoder<F>, b: Bytes, f: File, t: Tensor) returns (r: Result<R.Dense<F>>)
    requires Parsed(b) == Ok(f) && t in f.tensors && 0 < |t.dims| <= 2
    ensures r.Ok? <==> Loadable(t.typ)
    ensures r.Ok? ==> r == Ok(LoadDense(dec, b, f, t))
  {
    hide Parsed, Product, InReach, Element, Data, BytesRead;
    if t.typ != F32 && t.typ != Q4_0 && t.typ != Q6_K {
      return Err("unsupported type");
    }
    ReadsExactly(b, f, t);
    DataLength(b, f, t);
    var w := DecodeAll(dec, t.typ, Data(b, f, t), Product(t.dims));
    r := Ok(R.Dense(w, if |t.dims| > 1 then t.dims[1] else 1, t.dims[0]));
    assert w == LoadDense(dec, b, f, t).w;
  }

  lemma DataLength(b: Bytes, f: File, t: Tensor)
    requires Parsed(b) == Ok(f) && t in f.tensors
    ensures |Data(b, f, t)| == TensorBytes(t)
  {
    hide Parsed;
  }

  lemma DenseShaped<F>(dec: Decoder<F>, b: Bytes, f: File, q: Requirement)
    requires Parsed(b) == Ok(f) && Satisfied(f, q) && 0 < |q.dims| <= 2 && Loadable(Load(f, q.name).typ)
    ensures var d := LoadDense(dec, b, f, Load(f, q.name));
            R.Shaped(d, if |q.dims| > 1 then q.dims[1] else 1, q.dims[0])
  {
    hide Parsed, Data, Element, InReach;
    MatrixProduct(q.dims[0], if |q.dims| > 1 then q.dims[1] else 1);
    assert |q.dims| == 2 ==> q.dims == [q.dims[0], q.dims[1]];
    assert |q.dims| == 1 ==> q.dims == [q.dims[0]];
  }

  // ---------------------------------------------------------------- the layers

  /** Every weight of layer `l` was found. */
  ghost predicate LayerFound(f: File, c: Config, l: nat)
    requires Structural(c)
  {
    forall i | 0 <= i < 9 :: Satisfied(f, LayerManifest(c, l)[i])
  }

  lemma LayerIsFound(f: File, c: Config, l: nat)
    requires Structural(c) && AllSatisfied(f, Manifest(c, c.layers)) && l < c.layers
    ensures LayerFound(f, c, l)
  {
    hide Satisfied, AllSatisfied, LayerManifest, Manifest;
    LayerLength(c, l);
    forall i | 0 <= i < 9
      ensures Satisfied(f, LayerManifest(c, l)[i])
    {
      RequirementMet(f, c, l, LayerManifest(c, l)[i]);
    }
  }

  lemma LayerLength(c: Config, l: nat)
    requires Structural(c)
    ensures |LayerManifest(c, l)| == 9
  {
  }

  /** Rows and columns the manifest demands of weight `i`. */
  function WeightRows(c: Config, i: nat): int {
    if i == 0 || i == 5 then 1 else if i == 1 || i == 4 || i == 8 then c.hidden
    else if i == 2 || i == 3 then c.kvHeads * c.headDim else c.ffn
  }

  function WeightCols(c: Config, i: nat): int {
    if i == 8 then c.ffn else c.hidden
  }

  /** What the manifest says of weight `i` of a layer. */
  lemma WeightRequired(c: Config, l: nat, i: nat)
    requires Structural(c) && i < 9
    ensures |LayerManifest(c, l)| == 9
    ensures var q := LayerManifest(c, l)[i];
            && 0 < |q.dims| <= 2 && (forall t | t in q.types :: Loadable(t))
            && q.dims[0] == WeightCols(c, i) && (if |q.dims| > 1 then q.dims[1] else 1) == WeightRows(c, i)
  {
    hide LayerName;
  }

  lemma RequirementLoads(f: File, q: Requirement)
    requires Satisfied(f, q) && forall t | t in q.types :: Loadable(t)
    ensures Find(f.tensors, q.name).Some?
    ensures var t := Load(f, q.name); t in f.tensors && t.dims == q.dims && Loadable(t.typ)
  {
    hide Loadable;
  }

  /** Weight number `i` of layer `l`, in the order of the manifest. */
  function Weight<F>(dec: Decoder<F>, b: Bytes, f: File, c: Config, l: nat, i: nat): R.Dense<F>
    requires Parsed(b) == Ok(f) && Structural(c) && LayerFound(f, c, l) && i < 9
  {
    hide Parsed, LayerManifest, Find, Satisfied, Loadable;
    WeightRequired(c, l, i);
    var q := LayerManifest(c, l)[i];
    RequirementLoads(f, q);
    LoadDense(dec, b, f, Load(f, q.name))
  }

  function LayerOf<F>(dec: Decoder<F>, b: Bytes, f: File, c: Config, l: nat): R.Layer<F>
    requires Parsed(b) == Ok(f) && Structural(c) && LayerFound(f, c, l)
  {
    hide Parsed, LayerFound, Weight;
    R.Layer(Weight(dec, b, f, c, l, 0), Weight(dec, b, f, c, l, 1), Weight(dec, b, f, c, l, 2),
            Weight(dec, b, f, c, l, 3), Weight(dec, b, f, c, l, 4), Weight(dec, b, f, c, l, 5),
            Weight(dec, b, f, c, l, 6), Weight(dec, b, f, c, l, 7), Weight(dec, b, f, c, l, 8))
  }

  lemma WeightShaped<F>(dec: Decoder<F>, b: Bytes, f: File, c: Config, l: nat, i: nat)
    requires Parsed(b) == Ok(f) && Structural(c) && LayerFound(f, c, l) && i < 9
    ensures WeightRows(c, i) >= 0 && WeightCols(c, i) >= 0
    ensures R.Shaped(Weight(dec, b, f, c, l, i), WeightRows(c, i), WeightCols(c, i))
  {
    hide Parsed, Satisfied, R.Shaped, LoadDense, LayerManifest, Find, Loadable, WeightRows, WeightCols;
    WeightRequired(c, l, i);
    var q := LayerManifest(c, l)[i];
    assert Satisfied(f, q);
    RequirementLoads(f, q);
    DenseShaped(dec, b, f, q);
  }

  lemma LayerOfShaped<F>(dec: Decoder<F>, b: Bytes, f: File, c: Config, l: nat)
    requires Parsed(b) == Ok(f) && Structural(c) && LayerFound(f, c, l)
    ensures R.LayerShaped(LayerOf(dec, b, f, c, l), c.hidden, c.kvHeads * c.headDim, c.ffn)
  {
    hide Parsed, R.Shaped, Weight, LayerFound;
    WeightShaped(dec, b, f, c, l, 0);
    WeightShaped(dec, b, f, c, l, 1);
    WeightShaped(dec, b, f, c, l, 2);
    WeightShaped(dec, b, f, c, l, 3);
    WeightShaped(dec, b, f, c, l, 4);
    WeightShaped(dec, b, f, c, l, 5);
    WeightShaped(dec, b, f, c, l, 6);
    WeightShaped(dec, b, f, c, l, 7);
    WeightShaped(dec, b, f, c, l, 8);
  }

  // ---------------------------------------------------------------- embedding and output

  lemma RowReach(c: Config, i: nat)
    requires Structural(c) && Supported(c) && i < c.hidden
    ensures InReach(Q4_0, RowBytes(c), i)
  {
    BytesReach(Q4_0, c.hidden, i);
  }

  /** The bytes of a token's embedding row. */
  function RowData(b: Bytes, f: File, c: Config, token: nat): (d: Bytes)
    requires Accepted(b, f, c) && token < c.vocab
    ensures |d| == RowBytes(c)
  {
    hide Parsed, AllSatisfied, Manifest, TensorBytes, Ascii, RowBytes, RowStart;
    EmbeddingRowInside(b, f, c, token);
    var at := f.dataOffset + Load(f, Ascii("token_embd.weight")).offset + RowStart(c, token);
    b[at..at + RowBytes(c)]
  }

  function EmbeddingRow<F>(dec: Decoder<F>, b: Bytes, f: File, c: Config, token: nat): (row: seq<F>)
    requires Accepted(b, f, c) && token < c.vocab
    ensures |row| == c.hidden
  {
    hide Parsed, AllSatisfied, Manifest, InReach, Element, RowBytes;
    RowLength(b, f, c, token);
    seq(c.hidden, i requires 0 <= i < c.hidden => RowReach(c, i); Element(dec, Q4_0, RowData(b, f, c, token), i))
  }

  lemma RowLength(b: Bytes, f: File, c: Config, token: nat)
    requires Accepted(b, f, c) && token < c.vocab
    ensures |RowData(b, f, c, token)| == RowBytes(c)
  {
    hide Parsed, AllSatisfied, Manifest, RowBytes;
  }

  const OUTPUT_NORM := "output_norm.weight"
  const OUTPUT := "output.weight"

  lemma OutputsLoad(f: File, c: Config)
    requires Structural(c) && AllSatisfied(f, Manifest(c, c.layers))
    ensures Find(f.tensors, Ascii(OUTPUT_NORM)).Some? && Find(f.tensors, Ascii(OUTPUT)).Some?
    ensures var t := Load(f, Ascii(OUTPUT_NORM)); t in f.tensors && |t.dims| == 1 && Loadable(t.typ)
    ensures var t := Load(f, Ascii(OUTPUT)); t in f.tensors && |t.dims| == 2 && Loadable(t.typ)
    ensures Satisfied(f, Requirement(Ascii(OUTPUT_NORM), [c.hidden], {F32}))
    ensures Satisfied(f, Requirement(Ascii(OUTPUT), [c.hidden, c.vocab], {Q6_K, Q4_0, F32}))
  {
    hide Satisfied, AllSatisfied, Ascii;
    var norm := Requirement(Ascii(OUTPUT_NORM), [c.hidden], {F32});
    var out := Requirement(Ascii(OUTPUT), [c.hidden, c.vocab], {Q6_K, Q4_0, F32});
    RequirementMet(f, c, 0, norm);
    RequirementMet(f, c, 0, out);
    RequirementLoads(f, norm);
    RequirementLoads(f, out);
  }

  // ---------------------------------------------------------------- the whole model

  /** The sizes as the reference pass takes them from the metadata; without the key/value head count it has none. */
  datatype Sizes = Sizes(layers: int, dim: int, heads: int, kvHeads: int)

  function ReferenceSizes(f: File): Option<Sizes> {
    var l, d := MetaInt(f, "llama.block_count"), MetaInt(f, "llama.embedding_length");
    var h, kv := MetaInt(f, "llama.attention.head_count"), MetaInt(f, KV_KEY);
    if l.Some? && d.Some? && h.Some? && kv.Some? then Some(Sizes(l.value, d.value, h.value, kv.value)) else None
  }

  /** The lookups succeed for an accepted configuration exactly when the key is there, and then they agree with it. */
  lemma SizesAgree(f: File, fine: MetaValue -> bool)
    requires Describable(f)
    ensures ReferenceSizes(f).Some? <==> MetaInt(f, KV_KEY).Some?
    ensures var c := ConfigOf(f, fine);
            ReferenceSizes(f).Some? ==> ReferenceSizes(f).value == Sizes(c.layers, c.hidden, c.heads, c.kvHeads)
  {
    hide MetaInt, MetaString, MetaFloat, Ascii;
  }

  /** The model a reference pass over the file runs: sizes from its own lookups, weights from the tensors. */
  function ModelOf<F>(dec: Decoder<F>, b: Bytes, f: File, c: Config): R.Model<F>
    requires Accepted(b, f, c)
    requires ReferenceSizes(f) == Some(Sizes(c.layers, c.hidden, c.heads, c.kvHeads))
  {
    hide Parsed, Ascii, AllSatisfied, Manifest, LayerOf, EmbeddingRow, LoadDense, ReferenceSizes, Loadable, LayerFound;
    OutputsLoad(f, c);
    var s := ReferenceSizes(f).value;
    R.Model(
      s.dim, s.heads, s.kvHeads, c.ffn, c.vocab,
      seq(c.vocab, t requires 0 <= t < c.vocab => EmbeddingRow(dec, b, f, c, t)),
      seq(s.layers, l requires 0 <= l < s.layers => LayerIsFound(f, c, l); LayerOf(dec, b, f, c, l)),
      LoadDense(dec, b, f, Load(f, Ascii(OUTPUT_NORM))),
      LoadDense(dec, b, f, Load(f, Ascii(OUTPUT))))
  }

  lemma HeadWidth(c: Config)
    requires Structural(c)
    ensures c.hidden % c.heads == 0 && c.hidden / c.heads == c.headDim
  {
    DivModUnique(c.hidden, c.heads, c.headDim, 0);
  }

  /** The composed theorem: for a file that parses, passes both validations and holds the key/value head count, the
      model meets every shape the forward pass relies on. */
  lemma AcceptedModelShaped<F>(dec: Decoder<F>, b: Bytes, f: File, fine: MetaValue -> bool)
    requires Describable(f) && Accepted(b, f, ConfigOf(f, fine)) && MetaInt(f, KV_KEY).Some?
    ensures var c := ConfigOf(f, fine);
            && ReferenceSizes(f) == Some(Sizes(c.layers, c.hidden, c.heads, c.kvHeads))
            && R.ModelShaped(ModelOf(dec, b, f, c)) && ModelOf(dec, b, f, c).vocab == c.vocab
  {
    hide Parsed, Describable, ConfigOf, MetaInt, ReferenceSizes, AllSatisfied, ModelOf, Structural, Supported;
    SizesAgree(f, fine);
    ShapedFrom(dec, b, f, ConfigOf(f, fine));
  }

  lemma ShapedFrom<F>(dec: Decoder<F>, b: Bytes, f: File, c: Config)
    requires Accepted(b, f, c)
    requires ReferenceSizes(f) == Some(Sizes(c.layers, c.hidden, c.heads, c.kvHeads))
    ensures R.ModelShaped(ModelOf(dec, b, f, c)) && ModelOf(dec, b, f, c).vocab == c.vocab
  {
    hide Parsed, AllSatisfied, Satisfied, R.Shaped, R.LayerShaped, LayerOf, LoadDense, EmbeddingRow, Ascii,
      ReferenceSizes, Loadable, Find, Manifest;
    OutputsLoad(f, c);
    DenseShaped(dec, b, f, Requirement(Ascii(OUTPUT_NORM), [c.hidden], {F32}));
    DenseShaped(dec, b, f, Requirement(Ascii(OUTPUT), [c.hidden, c.vocab], {Q6_K, Q4_0, F32}));
    HeadWidth(c);
    var m := ModelOf(dec, b, f, c);
    forall l: nat | l < |m.layers|
      ensures R.LayerShaped(m.layers[l], m.dim, m.kvHeads * (m.dim / m.heads), m.ffn)
    {
      LayerIsFound(f, c, l);
      LayerOfShaped(dec, b, f, c, l);
    }
  }

  /** `reference_logits` on an accepted file that holds the key: no index is out of range for tokens below the
      vocabulary size, and the result is the logits of the definition. */
  method ReferenceOnFile<F, D>(ar: R.Arith<F, D>, dec: Decoder<F>, b: Bytes, f: File, fine: MetaValue -> bool,
                               tokens: seq<int>)
    returns (r: Result<seq<F>>)
    requires Describable(f) && Accepted(b, f, ConfigOf(f, fine)) && MetaInt(f, KV_KEY).Some?
    requires FP.InVocab(tokens, ConfigOf(f, fine).vocab)
    ensures ReferenceSizes(f).Some? && (r.Err? <==> tokens == [])
    ensures var c := ConfigOf(f, fine);
            && ReferenceSizes(f) == Some(Sizes(c.layers, c.hidden, c.heads, c.kvHeads))
            && R.ModelShaped(ModelOf(dec, b, f, c)) && ModelOf(dec, b, f, c).vocab == c.vocab
            && (r.Ok? ==> r.value == FP.Logits(ar, ModelOf(dec, b, f, c), tokens))
  {
    hide Parsed, Describable, ConfigOf, MetaInt, ReferenceSizes, AllSatisfied, ModelOf, R.ModelShaped, FP.Logits,
      Structural, Supported;
    AcceptedModelShaped(dec, b, f, fine);
    r := FP.ReferenceLogits(ar, ModelOf(dec, b, f, ConfigOf(f, fine)), tokens);
  }
}
