/** The configuration read from a parsed file, its checks, and the tensor manifest. */
module ModelConfig {
  import opened Common
  import opened GgufFormat
  import opened Numbers

  // ---------------------------------------------------------------- names

  function Ascii(s: string): (b: Bytes)
    ensures |b| == |s|
  {
    seq(|s|, i requires 0 <= i < |s| => s[i] as int % 256)
  }

  function Decimal(n: nat): string {
    if n < 10 then [('0' as int + n) as char] else Decimal(n / 10) + [('0' as int + n % 10) as char]
  }

  function LayerName(l: nat, part: string): Bytes {
    Ascii("blk." + Decimal(l) + "." + part)
  }

  // ---------------------------------------------------------------- lookups

  function MetaInt(f: File, key: string): Option<int> {
    if Ascii(key) !in f.tables.meta then None
    else match f.tables.meta[Ascii(key)] case IntV(n) => Some(n) case _ => None
  }

  function MetaString(f: File, key: string): Option<Bytes> {
    if Ascii(key) !in f.tables.meta then None
    else match f.tables.meta[Ascii(key)] case StrV(s) => Some(s) case _ => None
  }

  /** A number as `meta_float` would convert it, or nothing. */
  function MetaFloat(f: File, key: string): Option<MetaValue> {
    if Ascii(key) !in f.tables.meta then None
    else
      match f.tables.meta[Ascii(key)]
      case FloatV(b, w) => Some(FloatV(b, w))
      case IntV(n) => Some(IntV(n))
      case _ => None
  }

  /** `find`: the first tensor of that name. */
  function Find(ts: seq<Tensor>, name: Bytes): (r: Option<Tensor>)
    ensures r.Some? ==> r.value in ts && r.value.name == name
    ensures r.None? ==> forall i | 0 <= i < |ts| :: ts[i].name != name
  {
    if ts == [] then None else if ts[0].name == name then Some(ts[0]) else Find(ts[1..], name)
  }

  // ---------------------------------------------------------------- the configuration

  /** `epsOk` and `thetaOk` stand for "finite and positive". */
  datatype Config = Config(
    layers: int, hidden: int, ffn: int, heads: int, kvHeads: int, headDim: int, vocab: int, context: int,
    epsOk: bool, thetaOk: bool)

  function RequireInt(f: File, key: string): (r: Result<int>)
    ensures r.Ok? ==> r.value > 0
  {
    match MetaInt(f, key)
    case None => Err("missing metadata key")
    case Some(v) => if 0 < v <= 0x4000_0000 then Ok(v) else Err("outside (0, 2^30]")
  }

  /** The relationships `validate_config` demands, first the structural ones, then those of the kernels. */
  predicate Structural(c: Config) {
    && c.layers > 0 && c.hidden > 0 && c.ffn > 0 && c.heads > 0 && c.kvHeads > 0 && c.headDim > 0 && c.vocab > 0
    && c.context > 0 && c.hidden == c.heads * c.headDim && c.kvHeads <= c.heads && c.heads % c.kvHeads == 0
    && c.epsOk && c.thetaOk
  }

  predicate Supported(c: Config) {
    c.headDim == 64 && c.heads <= 32 && c.hidden % 32 == 0 && c.ffn % 32 == 0
  }

  /** One more violation unless `ok`. */
  function Need(bad: seq<string>, ok: bool, what: string): (r: seq<string>)
    ensures r == [] <==> bad == [] && ok
  {
    if ok then bad else bad + [what]
  }

  /** `validate_config`: collects every violation before it decides. */
  method ValidateConfig(c: Config) returns (r: Result<()>)
    ensures r.Ok? <==> Structural(c) && Supported(c)
  {
    hide Need;
    var bad: seq<string> := [];
    bad := Need(bad, c.layers > 0, "layers > 0");
    bad := Need(bad, c.hidden > 0, "hidden_size > 0");
    bad := Need(bad, c.ffn > 0, "intermediate_size > 0");
    bad := Need(bad, c.heads > 0, "attention_heads > 0");
    bad := Need(bad, c.kvHeads > 0, "kv_heads > 0");
    bad := Need(bad, c.headDim > 0, "head_dim > 0");
    bad := Need(bad, c.vocab > 0, "vocab_size > 0");
    bad := Need(bad, c.context > 0, "context_length > 0");
    bad := Need(bad, c.heads > 0 && c.hidden == c.heads * c.headDim, "hidden_size == attention_heads * head_dim");
    bad := Need(bad, c.kvHeads <= c.heads, "kv_heads <= attention_heads");
    bad := Need(bad, c.kvHeads > 0 && c.heads % c.kvHeads == 0, "attention_heads % kv_heads == 0");
    bad := Need(bad, c.epsOk, "rms_epsilon finite and > 0");
    bad := Need(bad, c.thetaOk, "rope_theta finite and > 0");
    if bad != [] {
      return Err("configuration violates");
    }
    var unsupported: seq<string> := [];
    if c.headDim != 64 { unsupported := unsupported + ["head_dim"]; }
    if c.heads > 32 { unsupported := unsupported + ["attention heads"]; }
    if c.hidden % 32 != 0 { unsupported := unsupported + ["hidden_size not a multiple of 32"]; }
    if c.ffn % 32 != 0 { unsupported := unsupported + ["intermediate_size not a multiple of 32"]; }
    if unsupported != [] {
      return Err("model shape outside this runtime's kernels");
    }
    r := Ok(());
  }

  const KV_KEY := "llama.attention.head_count_kv"

  const TOKENS_KEY := "tokenizer.ggml.tokens"
  const ROPE_KEY := "llama.rope.dimension_count"

  predicate SizesPresent(f: File) {
    && RequireInt(f, "llama.block_count").Ok? && RequireInt(f, "llama.embedding_length").Ok?
    && RequireInt(f, "llama.feed_forward_length").Ok? && RequireInt(f, "llama.attention.head_count").Ok?
    && (MetaInt(f, KV_KEY).Some? ==> RequireInt(f, KV_KEY).Ok?)
    && RequireInt(f, "llama.context_length").Ok?
  }

  function HeadDim(f: File): int
    requires SizesPresent(f)
  {
    RequireInt(f, "llama.embedding_length").value / RequireInt(f, "llama.attention.head_count").value
  }

  /** What `load_config` checks before it validates the configuration as a whole. */
  predicate Describable(f: File) {
    && MetaString(f, "general.architecture") == Some(Ascii("llama"))
    && SizesPresent(f)
    && (MetaInt(f, ROPE_KEY).Some? ==> RequireInt(f, ROPE_KEY) == Ok(HeadDim(f)))
    && (MetaString(f, "llama.rope.scaling.type").Some? ==>
          MetaString(f, "llama.rope.scaling.type") == Some(Ascii("none")))
    && Ascii(TOKENS_KEY) in f.tables.strings && f.tables.strings[Ascii(TOKENS_KEY)] != []
  }

  predicate FloatOk(f: File, key: string, fine: MetaValue -> bool) {
    MetaFloat(f, key).Some? ==> fine(MetaFloat(f, key).value)
  }

  /** The configuration the metadata describes; without a key/value head count, plain multi-head attention. */
  function ConfigOf(f: File, fine: MetaValue -> bool): Config
    requires Describable(f)
  {
    var heads := RequireInt(f, "llama.attention.head_count").value;
    Config(
      RequireInt(f, "llama.block_count").value, RequireInt(f, "llama.embedding_length").value,
      RequireInt(f, "llama.feed_forward_length").value, heads,
      if MetaInt(f, KV_KEY).Some? then RequireInt(f, KV_KEY).value else heads, HeadDim(f),
      Wrap32(|f.tables.strings[Ascii(TOKENS_KEY)]|), RequireInt(f, "llama.context_length").value,
      FloatOk(f, "llama.attention.layer_norm_rms_epsilon", fine), FloatOk(f, "llama.rope.freq_base", fine))
  }

  /** The part of the metadata that decides sizes. */
  method LoadSizes(f: File) returns (r: Result<seq<int>>)
    ensures r.Ok? <==> SizesPresent(f)
    ensures r.Ok? ==>
              && |r.value| == 6 && Ok(r.value[0]) == RequireInt(f, "llama.block_count")
              && Ok(r.value[1]) == RequireInt(f, "llama.embedding_length")
              && Ok(r.value[2]) == RequireInt(f, "llama.feed_forward_length")
              && Ok(r.value[3]) == RequireInt(f, "llama.attention.head_count")
              && Ok(r.value[4]) == (if MetaInt(f, KV_KEY).Some? then RequireInt(f, KV_KEY) else Ok(r.value[3]))
              && Ok(r.value[5]) == RequireInt(f, "llama.context_length")
  {
    hide MetaInt;
    var layers := RequireInt(f, "llama.block_count");
    if layers.Err? { return Err(layers.reason); }
    var hidden := RequireInt(f, "llama.embedding_length");
    if hidden.Err? { return Err(hidden.reason); }
    var ffn := RequireInt(f, "llama.feed_forward_length");
    if ffn.Err? { return Err(ffn.reason); }
    var heads := RequireInt(f, "llama.attention.head_count");
    if heads.Err? { return Err(heads.reason); }
    var kv := heads;
    if MetaInt(f, KV_KEY).Some? {
      kv := RequireInt(f, KV_KEY);
      if kv.Err? { return Err(kv.reason); }
    }
    var context := RequireInt(f, "llama.context_length");
    if context.Err? { return Err(context.reason); }
    r := Ok([layers.value, hidden.value, ffn.value, heads.value, kv.value, context.value]);
  }

  /** `load_config`. `fine` says which numbers convert to a finite positive float. */
  method LoadConfig(f: File, fine: MetaValue -> bool) returns (r: Result<Config>)
    ensures r.Ok? <==> Describable(f) && Structural(ConfigOf(f, fine)) && Supported(ConfigOf(f, fine))
    ensures r.Ok? ==> r.value == ConfigOf(f, fine)
  {
    hide Ascii, MetaInt, MetaFloat, MetaString, Structural, Supported, Wrap32;
    LlamaNotEmpty();
    var arch := MetaString(f, "general.architecture");
    if arch.None? || arch.value == [] {
      return Err("missing general.architecture");
    }
    if arch.value != Ascii("llama") {
      return Err("only llama is implemented");
    }
    var sizes := LoadSizes(f);
    if sizes.Err? { return Err(sizes.reason); }
    var n := sizes.value;
    var headDim := n[1] / n[3];
    if MetaInt(f, ROPE_KEY).Some? {
      var rope := RequireInt(f, ROPE_KEY);
      if rope.Err? { return Err(rope.reason); }
      if rope.value != headDim { return Err("partial rotary embedding"); }
    }
    var eps := FloatOk(f, "llama.attention.layer_norm_rms_epsilon", fine);
    var theta := FloatOk(f, "llama.rope.freq_base", fine);
    var scaling := MetaString(f, "llama.rope.scaling.type");
    if scaling.Some? && scaling.value != Ascii("none") {
      return Err("RoPE scaling is not implemented");
    }
    var key := Ascii(TOKENS_KEY);
    if key !in f.tables.strings || f.tables.strings[key] == [] {
      return Err("missing tokenizer.ggml.tokens");
    }
    var c := Config(n[0], n[1], n[2], n[3], n[4], headDim, Wrap32(|f.tables.strings[key]|), n[5], eps, theta);
    var ok := ValidateConfig(c);
    if ok.Err? { return Err(ok.reason); }
    r := Ok(c);
  }

  lemma LlamaNotEmpty()
    ensures Ascii("llama") != []
  {
    assert |Ascii("llama")| == 5;
  }

  /** What the reference pass reads for itself. It has no fallback for the key/value head count: without the key
      it dereferences nothing, although the configuration was accepted. */
  ghost predicate ReferenceReads(f: File, c: Config) {
    && MetaInt(f, "llama.block_count") == Some(c.layers)
    && MetaInt(f, "llama.embedding_length") == Some(c.hidden)
    && MetaInt(f, "llama.attention.head_count") == Some(c.heads)
    && MetaInt(f, KV_KEY) == Some(c.kvHeads)
  }

  /** Its lookups agree with an accepted configuration exactly when the key is present as an integer. */
  lemma ReferenceReadsIff(f: File, fine: MetaValue -> bool)
    requires Describable(f)
    ensures ReferenceReads(f, ConfigOf(f, fine)) <==> MetaInt(f, KV_KEY).Some?
  {
    hide MetaInt;
  }

  // ---------------------------------------------------------------- the manifest

  const F32 := 0
  const Q4_0 := 2
  const Q6_K := 14

  datatype Requirement = Requirement(name: Bytes, dims: seq<nat>, types: set<nat>)

  function BaseManifest(c: Config): seq<Requirement>
    requires Structural(c)
  {
    [Requirement(Ascii("token_embd.weight"), [c.hidden, c.vocab], {Q4_0}),
     Requirement(Ascii("output_norm.weight"), [c.hidden], {F32}),
     Requirement(Ascii("output.weight"), [c.hidden, c.vocab], {Q6_K, Q4_0, F32})]
  }

  function LayerManifest(c: Config, l: nat): seq<Requirement>
    requires Structural(c)
  {
    var kv: nat := c.kvHeads * c.headDim;
    [Requirement(LayerName(l, "attn_norm.weight"), [c.hidden], {F32}),
     Requirement(LayerName(l, "attn_q.weight"), [c.hidden, c.hidden], {Q4_0}),
     Requirement(LayerName(l, "attn_k.weight"), [c.hidden, kv], {Q4_0}),
     Requirement(LayerName(l, "attn_v.weight"), [c.hidden, kv], {Q4_0}),
     Requirement(LayerName(l, "attn_output.weight"), [c.hidden, c.hidden], {Q4_0}),
     Requirement(LayerName(l, "ffn_norm.weight"), [c.hidden], {F32}),
     Requirement(LayerName(l, "ffn_gate.weight"), [c.hidden, c.ffn], {Q4_0}),
     Requirement(LayerName(l, "ffn_up.weight"), [c.hidden, c.ffn], {Q4_0}),
     Requirement(LayerName(l, "ffn_down.weight"), [c.ffn, c.hidden], {Q4_0})]
  }

  function Manifest(c: Config, layers: nat): seq<Requirement>
    requires Structural(c)
  {
    if layers == 0 then BaseManifest(c) else Manifest(c, layers - 1) + LayerManifest(c, layers - 1)
  }

  /** `required_tensors`. */
  method RequiredTensors(c: Config) returns (r: seq<Requirement>)
    requires Structural(c)
    ensures r == Manifest(c, c.layers)
  {
    hide BaseManifest, LayerManifest;
    r := BaseManifest(c);
    for l := 0 to c.layers
      invariant r == Manifest(c, l)
    {
      r := r + LayerManifest(c, l);
    }
  }

  lemma {:induction false} ManifestHas(c: Config, layers: nat, l: nat, q: Requirement)
    requires Structural(c)
    requires (l < layers && q in LayerManifest(c, l)) || q in BaseManifest(c)
    ensures q in Manifest(c, layers)
    decreases layers
  {
    hide LayerManifest, BaseManifest;
    if layers > 0 && !(q in LayerManifest(c, layers - 1)) {
      ManifestHas(c, layers - 1, l, q);
    }
  }

  predicate Satisfied(f: File, q: Requirement) {
    var t := Find(f.tensors, q.name);
    t.Some? && t.value.typ in q.types && t.value.dims == q.dims
  }

  predicate AllSatisfied(f: File, qs: seq<Requirement>) {
    forall i | 0 <= i < |qs| :: Satisfied(f, qs[i])
  }

  /** `validate_tensors`: every requirement is checked, all problems are reported together. */
  method ValidateTensors(f: File, c: Config) returns (r: Result<()>)
    requires Structural(c)
    ensures r.Ok? <==> AllSatisfied(f, Manifest(c, c.layers))
  {
    hide Manifest;
    var problems: seq<string> := [];
    var qs := RequiredTensors(c);
    for i := 0 to |qs|
      invariant problems == [] <==> forall j | 0 <= j < i :: Satisfied(f, qs[j])
    {
      var t := Find(f.tensors, qs[i].name);
      if t.None? {
        problems := problems + ["missing"];
        continue;
      }
      if t.value.typ !in qs[i].types { problems := problems + ["type"]; }
      if t.value.dims != qs[i].dims { problems := problems + ["shape"]; }
    }
    r := if problems == [] then Ok(()) else Err("tensor problems");
  }
}
