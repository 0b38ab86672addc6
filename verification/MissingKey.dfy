/** A model file that is accepted without a key/value head count, although the reference pass needs the key. */
module MissingKey {
  import opened Common
  import opened GgufFormat
  import opened GgufLayout
  import opened GgufRoundTrip
  import opened ModelConfig

  const UINT32 := 4

  function Sizes(): (es: seq<Entry>)
    ensures |es| == 5
  {
    [Entry(Ascii("llama.block_count"), Pod(UINT32, 1)), Entry(Ascii("llama.embedding_length"), Pod(UINT32, 64)),
     Entry(Ascii("llama.feed_forward_length"), Pod(UINT32, 32)),
     Entry(Ascii("llama.attention.head_count"), Pod(UINT32, 1)), Entry(Ascii("llama.context_length"), Pod(UINT32, 1))]
  }

  /** The metadata of a plain multi-head model with one token in its vocabulary. */
  function Metadata(): (es: seq<Entry>)
    ensures |es| == 7
  {
    Sizes() + [Entry(Ascii("general.architecture"), Str(Ascii("llama"))),
               Entry(Ascii(TOKENS_KEY), Arr(STRING, [Str([])]))]
  }

  function PlainModel(): Image {
    Image(3, Metadata(), [], [])
  }

  // ---------------------------------------------------------------- spellings

  lemma KeyLengths()
    ensures |Ascii("general.architecture")| == 20 && |Ascii("llama.block_count")| == 17
    ensures |Ascii("llama.embedding_length")| == 22 && |Ascii("llama.feed_forward_length")| == 25
    ensures |Ascii("llama.attention.head_count")| == 26 && |Ascii(KV_KEY)| == 29
    ensures |Ascii("llama.context_length")| == 20 && |Ascii("llama.rope.scaling.type")| == 23
    ensures |Ascii("llama.attention.layer_norm_rms_epsilon")| == 38 && |Ascii("llama.rope.freq_base")| == 20
    ensures |Ascii(TOKENS_KEY)| == 21 && |Ascii(ROPE_KEY)| == 26 && |ALIGNMENT_KEY| == 17
  {
  }

  /** Keys of equal length differ in a letter. */
  lemma KeysDiffer()
    ensures Ascii("general.architecture") != Ascii("llama.context_length")
    ensures Ascii("general.architecture") != Ascii("llama.rope.freq_base")
    ensures Ascii("llama.context_length") != Ascii("llama.rope.freq_base")
    ensures Ascii(ROPE_KEY) != Ascii("llama.attention.head_count")
    ensures ALIGNMENT_KEY != Ascii("llama.block_count")
  {
    assert Ascii("general.architecture")[0] != Ascii("llama.context_length")[0];
    assert Ascii("general.architecture")[0] != Ascii("llama.rope.freq_base")[0];
    assert Ascii("llama.context_length")[6] != Ascii("llama.rope.freq_base")[6];
    assert Ascii(ROPE_KEY)[6] != Ascii("llama.attention.head_count")[6];
    assert ALIGNMENT_KEY[0] != Ascii("llama.block_count")[0];
  }

  lemma MetadataDistinct()
    ensures DistinctKeys(Metadata())
  {
    hide Ascii;
    KeyLengths();
    KeysDiffer();
  }

  predicate Unused(key: Bytes) {
    forall j | 0 <= j < |Metadata()| :: Metadata()[j].key != key
  }

  lemma AbsentKeys()
    ensures Unused(Ascii(KV_KEY)) && Unused(Ascii(ROPE_KEY)) && Unused(Ascii("llama.rope.scaling.type"))
    ensures Unused(Ascii("llama.attention.layer_norm_rms_epsilon")) && Unused(Ascii("llama.rope.freq_base"))
    ensures Unused(ALIGNMENT_KEY)
  {
    hide Ascii;
    KeyLengths();
    KeysDiffer();
  }

  // ---------------------------------------------------------------- the file

  lemma WordSmall()
    ensures Pow256(4) == 0x1_0000_0000
  {
    FourBytes();
  }

  lemma EntriesOk(i: nat)
    requires i < |Metadata()|
    ensures EntryOk(Metadata()[i])
  {
    hide Ascii;
    WordSmall();
    KeyLengths();
    LlamaLength();
  }

  lemma LlamaLength()
    ensures |Ascii("llama")| == 5
  {
  }

  lemma NothingYet(key: Bytes)
    ensures Fresh(NO_TABLES, key)
  {
  }

  lemma FileWellFormed()
    ensures WellFormed(PlainModel(), 32)
  {
    hide TablesOf, Metadata, EntryOk, Fresh;
    var es := Metadata();
    forall i: nat | i < |es|
      ensures EntryOk(es[i])
    {
      EntriesOk(i);
    }
    AbsentKeys();
    NothingYet(ALIGNMENT_KEY);
    NothingElse(es, NO_TABLES, ALIGNMENT_KEY);
    FreshMeans(TablesOf(es, NO_TABLES), ALIGNMENT_KEY);
    NoTensorsOk(32);
    MetadataLength();
  }

  lemma MetadataLength()
    ensures |Metadata()| == 7
  {
  }

  lemma FreshMeans(t: Tables, key: Bytes)
    requires Fresh(t, key)
    ensures key !in t.meta
  {
  }

  /** What the parser finds in it. */
  lemma Found(f: File)
    requires Parsed(Print(PlainModel(), 32)) == Ok(f)
    ensures forall i | 0 <= i < 7 :: Holds(f.tables, Metadata()[i])
    ensures forall key | Unused(key) :: Fresh(f.tables, key)
  {
    hide Parsed, Print, Holds, Fresh, WellFormed, DistinctKeys, Metadata;
    FileWellFormed();
    MetadataDistinct();
    MetadataLength();
    RoundTrip(PlainModel(), 32);
  }

  lemma ScalarFound(f: File, key: string, n: nat)
    requires Holds(f.tables, Entry(Ascii(key), Pod(UINT32, n)))
    ensures MetaInt(f, key) == Some(n)
  {
  }

  lemma NotFound(f: File, key: string)
    requires Fresh(f.tables, Ascii(key))
    ensures MetaInt(f, key) == None && MetaString(f, key) == None && MetaFloat(f, key) == None
  {
  }

  lemma SizesFound(f: File)
    requires Parsed(Print(PlainModel(), 32)) == Ok(f)
    ensures MetaInt(f, "llama.block_count") == Some(1) && MetaInt(f, "llama.embedding_length") == Some(64)
    ensures MetaInt(f, "llama.feed_forward_length") == Some(32) && MetaInt(f, "llama.attention.head_count") == Some(1)
    ensures MetaInt(f, "llama.context_length") == Some(1)
  {
    hide Ascii, Parsed, Print, Holds, MetaInt, Fresh, Unused;
    Found(f);
    var es := Metadata();
    assert Holds(f.tables, es[0]) && Holds(f.tables, es[1]) && Holds(f.tables, es[2]) && Holds(f.tables, es[3]);
    assert Holds(f.tables, es[4]);
    ScalarFound(f, "llama.block_count", 1);
    ScalarFound(f, "llama.embedding_length", 64);
    ScalarFound(f, "llama.feed_forward_length", 32);
    ScalarFound(f, "llama.attention.head_count", 1);
    ScalarFound(f, "llama.context_length", 1);
  }

  lemma OthersFound(f: File)
    requires Parsed(Print(PlainModel(), 32)) == Ok(f)
    ensures MetaInt(f, KV_KEY) == None && MetaInt(f, ROPE_KEY) == None
    ensures MetaString(f, "llama.rope.scaling.type") == None
    ensures MetaFloat(f, "llama.attention.layer_norm_rms_epsilon") == None
    ensures MetaFloat(f, "llama.rope.freq_base") == None
  {
    hide Ascii, Parsed, Print, Holds, MetaInt, MetaString, MetaFloat, Fresh, Unused, Metadata;
    Found(f);
    AbsentKeys();
    NotFound(f, KV_KEY);
    NotFound(f, ROPE_KEY);
    NotFound(f, "llama.rope.scaling.type");
    NotFound(f, "llama.attention.layer_norm_rms_epsilon");
    NotFound(f, "llama.rope.freq_base");
  }

  lemma TextsFound(f: File)
    requires Parsed(Print(PlainModel(), 32)) == Ok(f)
    ensures MetaString(f, "general.architecture") == Some(Ascii("llama"))
    ensures Ascii(TOKENS_KEY) in f.tables.strings && f.tables.strings[Ascii(TOKENS_KEY)] == [StrV([])]
  {
    hide Ascii, Parsed, Print, Fresh, Unused;
    Found(f);
    assert Holds(f.tables, Metadata()[5]) && Holds(f.tables, Metadata()[6]);
    OneKept();
    assert Ascii(TOKENS_KEY) in Arrays(f.tables, 0) <==> 0 == Shelf(STRING);
  }

  lemma OneKept()
    ensures KeptItems([Str([])]) == [StrV([])]
  {
    var none: seq<Value> := [];
    assert [Str([])][1..] == none && KeptItems(none) == [];
  }

  lemma Parses()
    ensures Parsed(Print(PlainModel(), 32)).Ok?
  {
    hide Parsed, Print, Metadata, WellFormed, TablesOf, Front, AlignUp;
    FileWellFormed();
    ParserInvertsPrinter(PlainModel(), 32);
  }

  /** From the lookups to the verdict. */
  lemma PlainAccepted(f: File, fine: MetaValue -> bool)
    requires MetaInt(f, "llama.block_count") == Some(1) && MetaInt(f, "llama.embedding_length") == Some(64)
    requires MetaInt(f, "llama.feed_forward_length") == Some(32) && MetaInt(f, "llama.attention.head_count") == Some(1)
    requires MetaInt(f, "llama.context_length") == Some(1) && MetaInt(f, KV_KEY) == None && MetaInt(f, ROPE_KEY) == None
    requires MetaString(f, "llama.rope.scaling.type") == None
    requires MetaFloat(f, "llama.attention.layer_norm_rms_epsilon") == None
    requires MetaFloat(f, "llama.rope.freq_base") == None
    requires MetaString(f, "general.architecture") == Some(Ascii("llama"))
    requires Ascii(TOKENS_KEY) in f.tables.strings && f.tables.strings[Ascii(TOKENS_KEY)] == [StrV([])]
    ensures Describable(f) && ConfigOf(f, fine) == Config(1, 64, 32, 1, 1, 64, 1, 1, true, true)
    ensures !ReferenceReads(f, ConfigOf(f, fine))
  {
    hide Ascii, MetaInt, MetaString, MetaFloat;
  }

  /** The printed file parses, its metadata is accepted as a valid configuration, and the reference pass would
      look up a key it does not hold. */
  lemma KeyMayBeMissing(fine: MetaValue -> bool)
    ensures var r := Parsed(Print(PlainModel(), 32));
            && r.Ok? && Describable(r.value)
            && Structural(ConfigOf(r.value, fine)) && Supported(ConfigOf(r.value, fine))
            && !ReferenceReads(r.value, ConfigOf(r.value, fine))
  {
    hide Ascii, Parsed, Print, MetaInt, MetaString, MetaFloat, Describable, ConfigOf, ReferenceReads, PlainModel;
    Parses();
    var f := Parsed(Print(PlainModel(), 32)).value;
    SizesFound(f);
    OthersFound(f);
    TextsFound(f);
    PlainAccepted(f, fine);
  }
}
