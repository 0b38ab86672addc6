/** Which tensor each weight of the model comes from, by name, and why no two weights share one. */
module ModelNames {
  import opened Common
  import opened Numbers
  import opened GgufFormat
  import opened ModelConfig
  import opened ModelBounds
  import opened ModelWeights
  import Q = Quant
  import R = Reference

  // ---------------------------------------------------------------- weights by name

  /** The tensor of that name is there and can be loaded. */
  ghost predicate Present(f: File, name: string) {
    Find(f.tensors, Ascii(name)).Some?
    && var t := Load(f, Ascii(name)); t in f.tensors && 0 < |t.dims| <= 2 && Loadable(t.typ)
  }

  function Named<F>(dec: Decoder<F>, b: Bytes, f: File, name: string): R.Dense<F>
    requires Parsed(b) == Ok(f) && Present(f, name)
  {
    LoadDense(dec, b, f, Load(f, Ascii(name)))
  }

  /** The names of one layer's weights, in the order of the manifest. */
  const PARTS: seq<string> := [
    "attn_norm.weight", "attn_q.weight", "attn_k.weight", "attn_v.weight", "attn_output.weight", "ffn_norm.weight",
    "ffn_gate.weight", "ffn_up.weight", "ffn_down.weight"]

  function NameOf(l: nat, i: nat): string
    requires i < 9
  {
    "blk." + Decimal(l) + "." + PARTS[i]
  }

  lemma ManifestNames(c: Config, l: nat, i: nat)
    requires Structural(c) && i < 9
    ensures |LayerManifest(c, l)| == 9 && LayerManifest(c, l)[i].name == Ascii(NameOf(l, i))
  {
    hide Ascii, Decimal;
  }

  lemma WeightIsNamed<F>(dec: Decoder<F>, b: Bytes, f: File, c: Config, l: nat, i: nat)
    requires Parsed(b) == Ok(f) && Structural(c) && LayerFound(f, c, l) && i < 9
    ensures Present(f, NameOf(l, i)) && Weight(dec, b, f, c, l, i) == Named(dec, b, f, NameOf(l, i))
  {
    hide Parsed, Ascii, LayerManifest, NameOf, LoadDense, Loadable, Satisfied;
    ManifestNames(c, l, i);
    WeightRequired(c, l, i);
    RequirementLoads(f, LayerManifest(c, l)[i]);
  }

  lemma NamesAre(l: nat)
    ensures var p := "blk." + Decimal(l) + ".";
            && NameOf(l, 0) == p + "attn_norm.weight" && NameOf(l, 1) == p + "attn_q.weight"
            && NameOf(l, 2) == p + "attn_k.weight" && NameOf(l, 3) == p + "attn_v.weight"
            && NameOf(l, 4) == p + "attn_output.weight" && NameOf(l, 5) == p + "ffn_norm.weight"
            && NameOf(l, 6) == p + "ffn_gate.weight" && NameOf(l, 7) == p + "ffn_up.weight"
            && NameOf(l, 8) == p + "ffn_down.weight"
  {
    hide Decimal;
  }

  ghost predicate Is<F>(dec: Decoder<F>, b: Bytes, f: File, d: R.Dense<F>, name: string)
    requires Parsed(b) == Ok(f)
  {
    Present(f, name) && d == Named(dec, b, f, name)
  }

  /** Every weight of a layer is the tensor of its own name. */
  lemma LayerByName<F>(dec: Decoder<F>, b: Bytes, f: File, c: Config, l: nat)
    requires Parsed(b) == Ok(f) && Structural(c) && LayerFound(f, c, l)
    ensures var w, p := LayerOf(dec, b, f, c, l), "blk." + Decimal(l) + ".";
            && Is(dec, b, f, w.attnNorm, p + "attn_norm.weight") && Is(dec, b, f, w.q, p + "attn_q.weight")
            && Is(dec, b, f, w.k, p + "attn_k.weight") && Is(dec, b, f, w.v, p + "attn_v.weight")
            && Is(dec, b, f, w.attnOut, p + "attn_output.weight") && Is(dec, b, f, w.ffnNorm, p + "ffn_norm.weight")
            && Is(dec, b, f, w.gate, p + "ffn_gate.weight") && Is(dec, b, f, w.up, p + "ffn_up.weight")
            && Is(dec, b, f, w.down, p + "ffn_down.weight")
  {
    hide Parsed, Structural, LayerFound, Weight, Named, Present, NameOf, Decimal;
    NamesAre(l);
    forall i: nat | i < 9
      ensures Is(dec, b, f, Weight(dec, b, f, c, l, i), NameOf(l, i))
    {
      WeightIsNamed(dec, b, f, c, l, i);
    }
  }

  /** The model of an accepted file: each layer's weights, the output norm and the output matrix under their names. */
  lemma ModelByName<F>(dec: Decoder<F>, b: Bytes, f: File, c: Config)
    requires Accepted(b, f, c)
    requires ReferenceSizes(f) == Some(Sizes(c.layers, c.hidden, c.heads, c.kvHeads))
    ensures var m := ModelOf(dec, b, f, c);
            && m.dim == c.hidden && m.heads == c.heads && m.kvHeads == c.kvHeads && m.vocab == c.vocab
            && Is(dec, b, f, m.outNorm, "output_norm.weight") && Is(dec, b, f, m.output, "output.weight")
            && |m.layers| == c.layers
            && forall l: nat | l < c.layers :: LayerFound(f, c, l) && m.layers[l] == LayerOf(dec, b, f, c, l)
  {
    hide Parsed, Ascii, AllSatisfied, Manifest, LayerOf, EmbeddingRow, LoadDense, ReferenceSizes, Loadable, LayerFound,
      Satisfied;
    OutputsLoad(f, c);
    forall l: nat | l < c.layers
      ensures LayerFound(f, c, l)
    {
      LayerIsFound(f, c, l);
    }
  }

  // ---------------------------------------------------------------- embedding rows

  lemma SliceOfSlice<T>(s: seq<T>, at: nat, n: nat, from: nat, size: nat)
    requires at + n <= |s| && from + size <= n
    ensures s[at..at + n][from..from + size] == s[at + from..at + from + size]
  {
    var x, y := s[at..at + n][from..from + size], s[at + from..at + from + size];
    assert forall i | 0 <= i < size :: x[i] == y[i];
  }

  lemma BlockInside(data: seq<bv8>, from: nat, size: nat, k: nat)
    requires from + size <= |data| && (k + 1) * 18 <= size && from % 18 == 0
    ensures (from / 18 + k + 1) * 18 <= |data|
    ensures Q.BlockAt(data[from..from + size], 18, k) == Q.BlockAt(data, 18, from / 18 + k)
  {
    var at := k * 18;
    assert (from / 18 + k) * 18 == from + at;
    SliceOfSlice(data, from, size, at, 18);
  }

  lemma BitsSlice(data: Bytes, from: nat, size: nat)
    requires from + size <= |data|
    ensures Bits(data[from..from + size]) == Bits(data)[from..from + size]
  {
  }

  /** Element `i` of a stretch of whole blocks is the element as far behind the stretch's first. */
  lemma ElementInside<F>(dec: Decoder<F>, data: Bytes, blocks: nat, size: nat, i: nat)
    requires blocks * 18 + size <= |data| && InReach(Q4_0, size, i)
    ensures InReach(Q4_0, |data|, blocks * 32 + i)
    ensures Element(dec, Q4_0, data, blocks * 32 + i) ==
            Element(dec, Q4_0, data[blocks * 18..blocks * 18 + size], i)
  {
    hide Bits, Q.Q4Value, Q.BlockAt;
    var from := blocks * 18;
    BitsLength(data);
    BitsSlice(data, from, size);
    DivModUnique(blocks * 32 + i, 32, blocks + i / 32, i % 32);
    DivModUnique(from, 18, blocks, 0);
    BlockInside(Bits(data), from, size, i / 32);
  }

  lemma RowPlace(c: Config, token: nat)
    requires Structural(c) && Supported(c)
    ensures var blocks := token * (c.hidden / 32);
            blocks >= 0 && RowStart(c, token) == blocks * 18 && blocks * 32 == token * c.hidden
  {
    assert c.hidden == c.hidden / 32 * 32;
    assert token * (c.hidden / 32) * 32 == token * (c.hidden / 32 * 32);
    MulLe(0, token, c.hidden / 32);
  }

  const EMBEDDING := "token_embd.weight"

  /** The embedding tensor's own bytes. */
  function EmbeddingData(b: Bytes, f: File, c: Config): Bytes
    requires Accepted(b, f, c)
  {
    hide Parsed, AllSatisfied, Manifest, Ascii;
    EmbeddingLoads(b, f, c);
    Data(b, f, Load(f, Ascii(EMBEDDING)))
  }

  lemma EmbeddingLoads(b: Bytes, f: File, c: Config)
    requires Accepted(b, f, c)
    ensures Find(f.tensors, Ascii(EMBEDDING)).Some? && Load(f, Ascii(EMBEDDING)) in f.tensors
  {
    hide Parsed, AllSatisfied, Manifest, Ascii;
    RequirementMet(f, c, 0, Requirement(Ascii(EMBEDDING), [c.hidden, c.vocab], {Q4_0}));
  }

  lemma RowIsSlice(b: Bytes, f: File, c: Config, token: nat)
    requires Accepted(b, f, c) && token < c.vocab
    ensures RowStart(c, token) + RowBytes(c) <= |EmbeddingData(b, f, c)|
    ensures RowData(b, f, c, token) ==
            EmbeddingData(b, f, c)[RowStart(c, token)..RowStart(c, token) + RowBytes(c)]
  {
    hide Parsed, AllSatisfied, Manifest, Ascii, RowBytes, RowStart, TensorBytes;
    EmbeddingLoads(b, f, c);
    EmbeddingRowInside(b, f, c, token);
    var t := Load(f, Ascii(EMBEDDING));
    TensorInside(b, f, t);
    SliceOfSlice(b, f.dataOffset + t.offset, TensorBytes(t), RowStart(c, token), RowBytes(c));
  }

  lemma RowElement<F>(dec: Decoder<F>, b: Bytes, f: File, c: Config, token: nat, i: nat)
    requires Accepted(b, f, c) && token < c.vocab && i < c.hidden
    ensures |RowData(b, f, c, token)| == RowBytes(c) && InReach(Q4_0, RowBytes(c), i)
    ensures EmbeddingRow(dec, b, f, c, token)[i] == Element(dec, Q4_0, RowData(b, f, c, token), i)
  {
    hide Parsed, AllSatisfied, Manifest, Element, InReach, RowBytes, RowData;
    RowReach(c, i);
    RowLength(b, f, c, token);
  }

  /** Number of the element in column `i` of a row. */
  function At(row: nat, width: nat, i: nat): nat {
    row * width + i
  }

  /** `x` is element `n` of Q4_0 data. */
  ghost predicate IsElement<F>(dec: Decoder<F>, data: Bytes, n: nat, x: F) {
    InReach(Q4_0, |data|, n) && x == Element(dec, Q4_0, data, n)
  }

  /** Decoding the row of a token is cutting it out of the decoded tensor: its element `i` is number token * hidden + i
      of the whole. */
  lemma EmbeddingIsRow<F>(dec: Decoder<F>, b: Bytes, f: File, c: Config, token: nat, i: nat)
    requires Accepted(b, f, c) && token < c.vocab && i < c.hidden
    ensures IsElement(dec, EmbeddingData(b, f, c), At(token, c.hidden, i), EmbeddingRow(dec, b, f, c, token)[i])
  {
    hide Accepted, Element, InReach, RowBytes, RowStart, Structural, Supported, EmbeddingData, RowData, EmbeddingRow;
    AcceptedConfig(b, f, c);
    RowPlace(c, token);
    RowIsSlice(b, f, c, token);
    RowElement(dec, b, f, c, token, i);
    ElementInside(dec, EmbeddingData(b, f, c), token * (c.hidden / 32), RowBytes(c), i);
  }

  lemma AcceptedConfig(b: Bytes, f: File, c: Config)
    requires Accepted(b, f, c)
    ensures Structural(c) && Supported(c) && c.hidden > 0
  {
    hide Parsed, AllSatisfied, Manifest;
  }

  // ---------------------------------------------------------------- no name twice

  /** The number a string of decimal digits stands for. */
  function FromDecimal(s: string): int {
    if s == [] then 0 else FromDecimal(s[..|s| - 1]) * 10 + (s[|s| - 1] as int - '0' as int)
  }

  predicate Digits(s: string) {
    s != [] && forall i | 0 <= i < |s| :: '0' <= s[i] <= '9'
  }

  /** Layer numbers are written in decimal. */
  lemma {:induction false} DecimalBack(n: nat)
    ensures FromDecimal(Decimal(n)) == n && Digits(Decimal(n))
  {
    var s := Decimal(n);
    if n < 10 {
      assert s[..0] == [];
    } else {
      DecimalBack(n / 10);
      assert s[..|s| - 1] == Decimal(n / 10);
    }
  }

  lemma AsciiAt(s: string, t: string, i: nat)
    requires Ascii(s) == Ascii(t) && i < |s|
    requires s[i] as int < 256 && (i < |t| ==> t[i] as int < 256)
    ensures |s| == |t| && s[i] == t[i]
  {
    assert Ascii(s)[i] == Ascii(t)[i];
  }

  predicate Plain(s: string) {
    forall i | 0 <= i < |s| :: s[i] as int < 128
  }

  lemma AsciiInjective(s: string, t: string)
    requires Plain(s) && Plain(t) && Ascii(s) == Ascii(t)
    ensures s == t
  {
    assert |Ascii(s)| == |s| && |Ascii(t)| == |t|;
    forall i | 0 <= i < |s|
      ensures s[i] == t[i]
    {
      AsciiAt(s, t, i);
    }
  }

  lemma FirstDot(d: string, p: string, s: string)
    requires Digits(d) && s == d + "." + p
    ensures |d| < |s| && s[|d|] == '.' && forall i | 0 <= i < |d| :: s[i] != '.'
    ensures s[..|d|] == d && s[|d| + 1..] == p
  {
  }

  /** Digits, a dot and a rest fall apart in one way only. */
  lemma DotSplits(d: string, p: string, e: string, q: string, s: string)
    requires Digits(d) && Digits(e) && s == d + "." + p && s == e + "." + q
    ensures d == e && p == q
  {
    hide Digits;
    FirstDot(d, p, s);
    FirstDot(e, q, s);
    assert |d| == |e|;
  }

  lemma PlainName(l: nat, p: string)
    requires Plain(p)
    ensures Plain("blk." + Decimal(l) + "." + p)
  {
    hide Decimal;
    DecimalBack(l);
  }

  lemma PartsDiffer(i: nat, j: nat)
    requires i < 9 && j < 9 && PARTS[i] == PARTS[j]
    ensures i == j
  {
    assert "attn_q.weight"[5] != "attn_k.weight"[5] && "attn_q.weight"[5] != "attn_v.weight"[5];
    assert "attn_k.weight"[5] != "attn_v.weight"[5];
    assert "ffn_norm.weight"[4] != "ffn_gate.weight"[4] && "ffn_norm.weight"[4] != "ffn_down.weight"[4];
    assert "ffn_gate.weight"[4] != "ffn_down.weight"[4];
  }

  lemma NamesSplit(l: nat, p: string, k: nat, q: string)
    requires Plain(p) && Plain(q)
    requires Ascii("blk." + Decimal(l) + "." + p) == Ascii("blk." + Decimal(k) + "." + q)
    ensures l == k && p == q
  {
    hide Ascii, Decimal, Plain, Digits, FromDecimal;
    var a, b := "blk." + Decimal(l) + "." + p, "blk." + Decimal(k) + "." + q;
    PlainName(l, p);
    PlainName(k, q);
    AsciiInjective(a, b);
    DecimalBack(l);
    DecimalBack(k);
    Undotted("blk.", Decimal(l) + "." + p, Decimal(k) + "." + q, a, b);
    DotSplits(Decimal(l), p, Decimal(k), q, Decimal(l) + "." + p);
  }

  lemma PartsPlain(i: nat)
    requires i < 9
    ensures Plain(PARTS[i])
  {
  }

  /** No two weights of any two layers share a name. */
  lemma NamesDiffer(l: nat, i: nat, k: nat, j: nat)
    requires i < 9 && j < 9 && Ascii(NameOf(l, i)) == Ascii(NameOf(k, j))
    ensures l == k && i == j
  {
    hide Ascii, Decimal, Plain;
    PartsPlain(i);
    PartsPlain(j);
    NamesSplit(l, PARTS[i], k, PARTS[j]);
    PartsDiffer(i, j);
  }

  lemma Undotted(p: string, s: string, t: string, a: string, b: string)
    requires a == p + s && b == p + t && a == b
    ensures s == t
  {
    assert a[|p|..] == s && b[|p|..] == t;
  }
}
