/** What parsing and validation guarantee about the bytes the reference pass reads. */
module ModelBounds {
  import opened Common
  import opened Numbers
  import opened GgufFormat
  import opened GgufLayout
  import opened ModelConfig
  import GgufParser

  /** A parsed file whose configuration and tensors were validated. */
  ghost predicate Accepted(b: Bytes, f: File, c: Config) {
    Parsed(b) == Ok(f) && Structural(c) && Supported(c) && AllSatisfied(f, Manifest(c, c.layers))
  }

  function Load(f: File, name: Bytes): Tensor
    requires Find(f.tensors, name).Some?
  {
    Find(f.tensors, name).value
  }

  lemma RequirementMet(f: File, c: Config, l: nat, q: Requirement)
    requires Structural(c) && AllSatisfied(f, Manifest(c, c.layers))
    requires (l < c.layers && q in LayerManifest(c, l)) || q in BaseManifest(c)
    ensures Satisfied(f, q)
  {
    hide Satisfied, LayerManifest, BaseManifest;
    ManifestHas(c, c.layers, l, q);
    var i :| 0 <= i < |Manifest(c, c.layers)| && Manifest(c, c.layers)[i] == q;
  }

  // ---------------------------------------------------------------- bytes of a tensor

  /** The bytes the loader hands to a dequantizer: they all lie inside the image. */
  lemma TensorInside(b: Bytes, f: File, t: Tensor)
    requires Parsed(b) == Ok(f) && t in f.tensors
    ensures f.dataOffset + t.offset + TensorBytes(t) <= |b|
  {
    hide Parsed, TensorBytes, PairwiseDisjoint;
    AcceptedLayout(b);
    var i :| 0 <= i < |f.tensors| && f.tensors[i] == t;
  }

  function Data(b: Bytes, f: File, t: Tensor): (d: Bytes)
    requires Parsed(b) == Ok(f) && t in f.tensors
    ensures |d| == TensorBytes(t)
  {
    TensorInside(b, f, t);
    b[f.dataOffset + t.offset..f.dataOffset + t.offset + TensorBytes(t)]
  }

  /** Bytes the dequantizer of a type reads for `n` elements. */
  function BytesRead(typ: nat, n: nat): nat {
    if typ == F32 then 4 * n else if typ == Q4_0 then n / 32 * 18 else n / 256 * 210
  }

  /** What is read is exactly what the tensor owns, and the partial-block checks of the dequantizers never fire. */
  lemma ReadsExactly(b: Bytes, f: File, t: Tensor)
    requires Parsed(b) == Ok(f) && t in f.tensors && t.typ in {F32, Q4_0, Q6_K}
    ensures BytesRead(t.typ, Product(t.dims)) == TensorBytes(t)
    ensures t.typ == Q4_0 ==> Product(t.dims) % 32 == 0
    ensures t.typ == Q6_K ==> Product(t.dims) % 256 == 0
  {
    hide Parsed, ReadFile, Product;
    ParsedTensorsOk(b);
    var i :| 0 <= i < |f.tensors| && f.tensors[i] == t;
    assert TensorOk(t, f.align);
  }

  lemma ParsedTensorsOk(b: Bytes)
    ensures Parsed(b).Ok? ==> Parsed(b).value.align > 0 && TensorsOk(Parsed(b).value.tensors, Parsed(b).value.align)
  {
    hide ReadFile, TensorsOk, PairwiseDisjoint, Inside;
    FileTensorsOk(b);
  }

  /** Bytes of one embedding row, and where the row of a token starts. */
  function RowBytes(c: Config): nat
    requires Structural(c)
  {
    c.hidden / 32 * 18
  }

  function RowStart(c: Config, token: nat): nat
    requires Structural(c)
  {
    token * (c.hidden / 32) * 18
  }

  /** The embedding row of every token below the vocabulary size lies inside the embedding's own bytes. */
  lemma EmbeddingRowInside(b: Bytes, f: File, c: Config, token: nat)
    requires Accepted(b, f, c) && token < c.vocab
    ensures Find(f.tensors, Ascii("token_embd.weight")).Some?
    ensures var t := Load(f, Ascii("token_embd.weight"));
            && c.hidden % 32 == 0
            && RowStart(c, token) + RowBytes(c) <= TensorBytes(t)
            && f.dataOffset + t.offset + RowStart(c, token) + RowBytes(c) <= |b|
  {
    hide Parsed, AllSatisfied, Ascii;
    RequirementMet(f, c, 0, Requirement(Ascii("token_embd.weight"), [c.hidden, c.vocab], {Q4_0}));
    var t := Load(f, Ascii("token_embd.weight"));
    TensorInside(b, f, t);
    MatrixProduct(c.hidden, c.vocab);
    RowsOfBlocks(c.hidden, c.vocab, token);
  }

  lemma MatrixProduct(cols: nat, rows: nat)
    ensures Product([cols, rows]) == cols * rows && Product([cols]) == cols
  {
    var pair, one := [cols, rows], [cols];
    assert pair[..|pair| - 1] == one && one[..|one| - 1] == [];
    assert Product(one) == Product(one[..|one| - 1]) * cols;
  }

  lemma RowsOfBlocks(cols: nat, rows: nat, row: nat)
    requires cols % 32 == 0 && row < rows
    ensures row * (cols / 32) * 18 + cols / 32 * 18 <= cols * rows / 32 * 18
  {
    var k := cols / 32;
    assert cols == 32 * k;
    assert cols * rows == (k * rows) * 32;
    MultipleMod(k * rows, 32);
    MulLe(row + 1, rows, k);
  }

  // ---------------------------------------------------------------- the load path

  /** The load path: parse, read the configuration, check the tensors. Whatever it lets through is fit to run. */
  method LoadChecked(b: Bytes, fine: MetaValue -> bool) returns (r: Result<(File, Config)>)
    requires |b| < GgufParser.MAX_IMAGE
    ensures r.Ok? ==> Accepted(b, r.value.0, r.value.1)
    ensures r.Ok? ==> Describable(r.value.0) && r.value.1 == ConfigOf(r.value.0, fine)
    ensures r.Err? ==> forall f: File | Parsed(b) == Ok(f) && Describable(f) :: !Accepted(b, f, ConfigOf(f, fine))
  {
    hide Parsed, Describable, ConfigOf, Structural, Supported, AllSatisfied, Manifest;
    var f := GgufParser.Parse(b);
    if f.Err? { return Err(f.reason); }
    var c := LoadConfig(f.value, fine);
    if c.Err? { return Err(c.reason); }
    var ok := ValidateTensors(f.value, c.value);
    if ok.Err? { return Err(ok.reason); }
    r := Ok((f.value, c.value));
  }
}
