/** A printer for model files, and the proof that the parser inverts it. */
module GgufRoundTrip {
  import opened Common
  import opened Numbers
  import opened GgufFormat
  import opened GgufTruncation
  import opened GgufLayout

  // ---------------------------------------------------------------- the printer

  datatype Value = Pod(tag: nat, raw: nat) | Str(s: Bytes) | Arr(elem: nat, items: seq<Value>)

  datatype Entry = Entry(key: Bytes, value: Value)

  datatype Image = Image(version: nat, entries: seq<Entry>, tensors: seq<Tensor>, blob: Bytes)

  function TagOf(v: Value): nat {
    match v case Pod(tag, _) => tag case Str(_) => STRING case Arr(_, _) => ARRAY
  }

  function PrintStr(s: Bytes): Bytes {
    LE(|s|, 8) + s
  }

  function PrintValue(v: Value): Bytes
    decreases v, 0
  {
    match v
    case Pod(tag, raw) => LE(raw, PodSize(tag))
    case Str(s) => PrintStr(s)
    case Arr(elem, items) => LE(elem, 4) + LE(|items|, 8) + PrintItems(items)
  }

  function PrintItems(items: seq<Value>): Bytes
    decreases items
  {
    if items == [] then [] else PrintValue(items[0]) + PrintItems(items[1..])
  }

  function PrintEntry(e: Entry): Bytes {
    PrintStr(e.key) + LE(TagOf(e.value), 4) + PrintValue(e.value)
  }

  function PrintEntries(es: seq<Entry>): Bytes {
    if es == [] then [] else PrintEntry(es[0]) + PrintEntries(es[1..])
  }

  function PrintDims(dims: seq<nat>): Bytes {
    if dims == [] then [] else LE(dims[0], 8) + PrintDims(dims[1..])
  }

  function PrintTensor(t: Tensor): Bytes {
    PrintStr(t.name) + LE(|t.dims|, 4) + PrintDims(t.dims) + LE(t.typ, 4) + LE(t.offset, 8)
  }

  function PrintTensors(ts: seq<Tensor>): Bytes {
    if ts == [] then [] else PrintTensor(ts[0]) + PrintTensors(ts[1..])
  }

  function PrintHeader(m: Image): Bytes {
    MAGIC + LE(m.version, 4) + LE(|m.tensors|, 8) + LE(|m.entries|, 8)
  }

  function Front(m: Image): Bytes {
    PrintHeader(m) + PrintEntries(m.entries) + PrintTensors(m.tensors)
  }

  function Print(m: Image, align: nat): Bytes
    requires align > 0
  {
    AlignsUp(|Front(m)|, align);
    Front(m) + seq(AlignUp(|Front(m)|, align) - |Front(m)|, _ => 0) + m.blob
  }

  // ---------------------------------------------------------------- what must come back

  /** A value the format can express. */
  predicate WellTyped(v: Value)
    decreases v, 0
  {
    match v
    case Pod(tag, raw) => PodSize(tag) > 0 && raw < Pow256(PodSize(tag))
    case Str(s) => |s| <= MAX_STRING
    case Arr(elem, items) => elem < Pow256(4) && |items| <= MAX_ARRAY && WellTypedItems(elem, items)
  }

  predicate WellTypedItems(elem: nat, items: seq<Value>)
    decreases items
  {
    items != [] ==> TagOf(items[0]) == elem && WellTyped(items[0]) && WellTypedItems(elem, items[1..])
  }

  /** What the parser keeps of one value: nothing of an array. */
  function Kept(v: Value): MetaValue {
    match v case Pod(tag, raw) => PodValue(tag, raw) case Str(s) => StrV(s) case Arr(_, _) => Nothing
  }

  function KeptItems(items: seq<Value>): seq<MetaValue> {
    if items == [] then [] else [Kept(items[0])] + KeptItems(items[1..])
  }

  function Filed(t: Tables, e: Entry): Tables {
    match e.value
    case Arr(elem, items) => FileArray(t, e.key, elem, KeptItems(items))
    case _ => t.(meta := t.meta[e.key := Kept(e.value)])
  }

  function TablesOf(es: seq<Entry>, t: Tables): Tables {
    if es == [] then t else TablesOf(es[1..], Filed(t, es[0]))
  }

  predicate EntryOk(e: Entry) {
    |e.key| <= MAX_STRING && WellTyped(e.value)
  }

  /** The limits of the format, distinct tensor names, and a blob that holds the tensors apart. */
  ghost predicate WellFormed(m: Image, align: nat) {
    && 2 <= m.version <= 3 && |m.entries| <= MAX_COUNT && |m.tensors| <= MAX_COUNT
    && (forall i | 0 <= i < |m.entries| :: EntryOk(m.entries[i]))
    && align > 0 && Alignment(TablesOf(m.entries, NO_TABLES).meta) == Ok(align)
    && TensorsOk(m.tensors, align)
    && (forall i | 0 <= i < |m.tensors| :: |m.tensors[i].name| <= MAX_STRING)
    && (forall i | 0 <= i < |m.tensors| :: Inside(m.tensors[i], |m.blob|))
    && PairwiseDisjoint(m.tensors)
  }

  // ---------------------------------------------------------------- reading back one piece at a time

  lemma OccursSplit(b: Bytes, p: Bytes, q: Bytes, at: nat)
    requires OccursAt(b, p + q, at)
    ensures OccursAt(b, p, at) && OccursAt(b, q, at + |p|)
  {
    var piece := b[at..at + |p| + |q|];
    assert piece == p + q;
    assert piece[..|p|] == p && piece[|p|..] == q;
    assert b[at..at + |p|] == piece[..|p|];
    assert b[at + |p|..at + |p| + |q|] == piece[|p|..];
  }

  lemma NumBack(b: Bytes, off: nat, n: nat, k: nat)
    requires OccursAt(b, LE(n, k), off) && n < Pow256(k)
    ensures ReadNum(b, off, k) == Ok(Read(n, off + k))
  {
    LERoundTrip(n, k);
  }

  lemma FourBytes()
    ensures Pow256(4) == 0x1_0000_0000
  {
    assert Pow256(1) == 256 && Pow256(2) == 0x1_0000 && Pow256(3) == 0x100_0000;
  }

  lemma StrBack(b: Bytes, off: nat, s: Bytes)
    requires OccursAt(b, PrintStr(s), off) && |s| <= MAX_STRING
    ensures ReadStr(b, off) == Ok(Read(s, off + |PrintStr(s)|))
  {
    hide ReadNum, OccursAt;
    EightBytes();
    OccursSplit(b, LE(|s|, 8), s, off);
    NumBack(b, off, |s|, 8);
    OccursMeans(b, s, off + 8);
  }

  lemma OccursMeans(b: Bytes, s: Bytes, at: nat)
    requires OccursAt(b, s, at)
    ensures at + |s| <= |b| && b[at..at + |s|] == s
  {
  }

  lemma ArrayHeadBack(b: Bytes, off: nat, elem: nat, n: nat)
    requires OccursAt(b, LE(elem, 4) + LE(n, 8), off) && elem < Pow256(4) && n <= MAX_ARRAY
    ensures ReadArrayHead(b, off) == Ok(Read(ArrayHead(elem, n), off + 12))
  {
    hide ReadNum, OccursAt;
    EightBytes();
    OccursSplit(b, LE(elem, 4), LE(n, 8), off);
    NumBack(b, off, elem, 4);
    NumBack(b, off + 4, n, 8);
  }

  /** One printed value is read back, and the reader stops exactly behind it: nested arrays included. */
  lemma {:induction false} ValueBack(b: Bytes, off: nat, v: Value)
    requires OccursAt(b, PrintValue(v), off) && WellTyped(v)
    ensures ReadValue(b, off, TagOf(v)) == Ok(Read(Kept(v), off + |PrintValue(v)|))
    decreases v, 0
  {
    hide OccursAt, ReadNum, ReadStr, ReadArrayHead, ReadMany, PodValue;
    match v
    case Pod(tag, raw) => NumBack(b, off, raw, PodSize(tag));
    case Str(s) => StrBack(b, off, s);
    case Arr(elem, items) =>
      OccursSplit(b, LE(elem, 4) + LE(|items|, 8), PrintItems(items), off);
      ArrayHeadBack(b, off, elem, |items|);
      OccursMeans(b, PrintItems(items), off + 12);
      ItemsBack(b, off + 12, elem, items);
  }

  lemma {:induction false} ItemsBack(b: Bytes, off: nat, elem: nat, items: seq<Value>)
    requires off <= |b| && OccursAt(b, PrintItems(items), off) && WellTypedItems(elem, items)
    ensures ReadMany(b, off, elem, |items|) == Ok(Read(KeptItems(items), off + |PrintItems(items)|))
    decreases items
  {
    hide OccursAt, ReadValue, PrintValue, Kept, WellTyped;
    if items != [] {
      OccursSplit(b, PrintValue(items[0]), PrintItems(items[1..]), off);
      ValueBack(b, off, items[0]);
      ItemsBack(b, off + |PrintValue(items[0])|, elem, items[1..]);
    }
  }

  lemma EntryBack(b: Bytes, off: nat, e: Entry, t: Tables)
    requires off <= |b| && OccursAt(b, PrintEntry(e), off) && EntryOk(e)
    ensures ReadEntry(b, off, t) == Ok(Read(Filed(t, e), off + |PrintEntry(e)|))
  {
    hide OccursAt, ReadNum, ReadStr, ReadValue, ReadArrayHead, ReadMany, PrintStr, PrintValue, FileArray, WellTyped;
    var at := off + |PrintStr(e.key)|;
    OccursSplit(b, PrintStr(e.key) + LE(TagOf(e.value), 4), PrintValue(e.value), off);
    OccursSplit(b, PrintStr(e.key), LE(TagOf(e.value), 4), off);
    StrBack(b, off, e.key);
    TagSmall(e.value);
    NumBack(b, at, TagOf(e.value), 4);
    ValueBack(b, at + 4, e.value);
    match e.value
    case Arr(elem, items) => ArrayBack(b, at + 4, elem, items);
    case _ => ScalarTag(e.value);
  }

  lemma TagSmall(v: Value)
    requires WellTyped(v)
    ensures TagOf(v) < Pow256(4)
  {
    FourBytes();
  }

  lemma ScalarTag(v: Value)
    requires WellTyped(v) && !v.Arr?
    ensures TagOf(v) != ARRAY
  {
  }

  lemma ArrayBack(b: Bytes, off: nat, elem: nat, items: seq<Value>)
    requires OccursAt(b, PrintValue(Arr(elem, items)), off) && WellTyped(Arr(elem, items))
    ensures ReadArrayHead(b, off) == Ok(Read(ArrayHead(elem, |items|), off + 12))
    ensures off + 12 <= |b|
    ensures ReadMany(b, off + 12, elem, |items|) == Ok(Read(KeptItems(items), off + |PrintValue(Arr(elem, items))|))
  {
    hide OccursAt, ReadNum, ReadMany, KeptItems, WellTypedItems;
    OccursSplit(b, LE(elem, 4) + LE(|items|, 8), PrintItems(items), off);
    ArrayHeadBack(b, off, elem, |items|);
    ItemsBack(b, off + 12, elem, items);
  }

  lemma {:induction false} EntriesBack(b: Bytes, off: nat, es: seq<Entry>, t: Tables)
    requires off <= |b| && OccursAt(b, PrintEntries(es), off)
    requires forall i | 0 <= i < |es| :: EntryOk(es[i])
    ensures ReadEntries(b, off, |es|, t) == Ok(Read(TablesOf(es, t), off + |PrintEntries(es)|))
    decreases es
  {
    hide OccursAt, ReadEntry, PrintEntry, Filed, EntryOk;
    if es != [] {
      OccursSplit(b, PrintEntry(es[0]), PrintEntries(es[1..]), off);
      EntryBack(b, off, es[0], t);
      EntriesBack(b, off + |PrintEntry(es[0])|, es[1..], Filed(t, es[0]));
    }
  }

  /** The running product stays under the cap because every dimension is at least one. */
  lemma {:induction false} DimsBack(b: Bytes, off: nat, dims: seq<nat>, k: nat)
    requires k <= |dims| && off <= |b| && OccursAt(b, PrintDims(dims[k..]), off) && DimsOk(dims)
    ensures ReadDims(b, off, |dims| - k, dims[..k]) == Ok(Read(dims, off + |PrintDims(dims[k..])|))
    ensures |PrintDims(dims[k..])| == 8 * (|dims| - k)
    decreases |dims| - k
  {
    hide OccursAt, ReadNum;
    if k == |dims| {
      assert dims[..k] == dims && dims[k..] == [];
    } else {
      assert dims[k..][1..] == dims[k + 1..] && dims[..k + 1] == dims[..k] + [dims[k]];
      OccursSplit(b, LE(dims[k], 8), PrintDims(dims[k + 1..]), off);
      PrefixProduct(dims, k + 1);
      PrefixProduct(dims, k);
      assert dims[..k + 1][..k] == dims[..k];
      DimSmall(dims, k);
      NumBack(b, off, dims[k], 8);
      DimsBack(b, off + 8, dims, k + 1);
    }
  }

  lemma DimSmall(dims: seq<nat>, k: nat)
    requires k < |dims| && DimsOk(dims)
    ensures dims[k] < Pow256(8)
  {
    EightBytes();
    PrefixProduct(dims, k);
    PrefixProduct(dims, k + 1);
    assert dims[..k + 1][..k] == dims[..k];
    MulLe(1, Product(dims[..k]), dims[k]);
  }

  lemma TypeSmall(t: nat)
    requires TypeTraits(t).bytes > 0
    ensures t < Pow256(4)
  {
    FourBytes();
  }

  lemma TensorBack(b: Bytes, off: nat, t: Tensor, align: nat, seen: set<Bytes>)
    requires off <= |b| && OccursAt(b, PrintTensor(t), off)
    requires align > 0 && TensorOk(t, align) && |t.name| <= MAX_STRING && t.name !in seen
    ensures ReadTensor(b, off, align, seen) == Ok(Read(t, off + |PrintTensor(t)|))
  {
    hide OccursAt, ReadNum, ReadStr, ReadDims, PrintStr, PrintDims, Product, TypeTraits;
    var at := off + |PrintStr(t.name)|;
    var dims := at + 4;
    var typ := dims + 8 * |t.dims|;
    FourBytes();
    EightBytes();
    TypeSmall(t.typ);
    OccursSplit(b, PrintStr(t.name) + LE(|t.dims|, 4) + PrintDims(t.dims) + LE(t.typ, 4), LE(t.offset, 8), off);
    OccursSplit(b, PrintStr(t.name) + LE(|t.dims|, 4) + PrintDims(t.dims), LE(t.typ, 4), off);
    OccursSplit(b, PrintStr(t.name) + LE(|t.dims|, 4), PrintDims(t.dims), off);
    OccursSplit(b, PrintStr(t.name), LE(|t.dims|, 4), off);
    StrBack(b, off, t.name);
    NumBack(b, at, |t.dims|, 4);
    AllDimsBack(b, dims, t.dims);
    NumBack(b, typ, t.typ, 4);
    NumBack(b, typ + 4, t.offset, 8);
  }

  lemma AllDimsBack(b: Bytes, off: nat, dims: seq<nat>)
    requires OccursAt(b, PrintDims(dims), off) && DimsOk(dims)
    ensures off <= |b| && ReadDims(b, off, |dims|, []) == Ok(Read(dims, off + 8 * |dims|))
    ensures |PrintDims(dims)| == 8 * |dims|
  {
    hide ReadDims, PrintDims, Product;
    assert dims[0..] == dims && dims[..0] == [];
    DimsBack(b, off, dims, 0);
  }

  lemma {:induction false} TensorsBack(b: Bytes, off: nat, all: seq<Tensor>, k: nat, align: nat)
    requires k <= |all| && off <= |b| && OccursAt(b, PrintTensors(all[k..]), off)
    requires align > 0 && TensorsOk(all, align) && forall i | 0 <= i < |all| :: |all[i].name| <= MAX_STRING
    ensures ReadTensors(b, off, |all| - k, align, all[..k]) == Ok(Read(all, off + |PrintTensors(all[k..])|))
    decreases |all| - k
  {
    hide OccursAt, ReadTensor, PrintTensor, TensorOk;
    if k == |all| {
      assert all[..k] == all && all[k..] == [];
    } else {
      assert all[k..][1..] == all[k + 1..] && all[..k + 1] == all[..k] + [all[k]];
      OccursSplit(b, PrintTensor(all[k]), PrintTensors(all[k + 1..]), off);
      TensorBack(b, off, all[k], align, Names(all[..k]));
      TensorsBack(b, off + |PrintTensor(all[k])|, all, k + 1, align);
    }
  }

  lemma HeaderBack(b: Bytes, m: Image)
    requires OccursAt(b, PrintHeader(m), 0)
    requires 2 <= m.version <= 3 && |m.entries| <= MAX_COUNT && |m.tensors| <= MAX_COUNT
    ensures ReadHeader(b) == Ok(Read(Header(m.version, |m.tensors|, |m.entries|), 24))
  {
    hide OccursAt, ReadNum;
    FourBytes();
    EightBytes();
    OccursSplit(b, MAGIC + LE(m.version, 4) + LE(|m.tensors|, 8), LE(|m.entries|, 8), 0);
    OccursSplit(b, MAGIC + LE(m.version, 4), LE(|m.tensors|, 8), 0);
    OccursSplit(b, MAGIC, LE(m.version, 4), 0);
    OccursMeans(b, MAGIC, 0);
    NumBack(b, 4, m.version, 4);
    NumBack(b, 8, |m.tensors|, 8);
    NumBack(b, 16, |m.entries|, 8);
  }

  lemma FrontBack(b: Bytes, m: Image, align: nat)
    requires OccursAt(b, Front(m), 0) && WellFormed(m, align)
    ensures ReadFile(b) ==
            Ok(Read(File(m.version, TablesOf(m.entries, NO_TABLES), m.tensors, align, AlignUp(|Front(m)|, align)),
                    |Front(m)|))
  {
    hide OccursAt, ReadHeader, ReadEntries, ReadTensors, TensorsOk, EntryOk, Inside, Alignment, PairwiseDisjoint,
      TablesOf, PrintEntries, PrintTensors, AlignUp;
    var at := 24 + |PrintEntries(m.entries)|;
    assert m.tensors[0..] == m.tensors && m.tensors[..0] == [];
    OccursSplit(b, PrintHeader(m) + PrintEntries(m.entries), PrintTensors(m.tensors), 0);
    OccursSplit(b, PrintHeader(m), PrintEntries(m.entries), 0);
    OccursMeans(b, PrintHeader(m), 0);
    OccursMeans(b, PrintTensors(m.tensors), at);
    HeaderBack(b, m);
    EntriesBack(b, 24, m.entries, NO_TABLES);
    TensorsBack(b, at, m.tensors, 0, align);
  }

  /** Parser and printer are inverse: a well-formed model is read back with its version, its tables, its
      tensors and its data offset. */
  lemma ParserInvertsPrinter(m: Image, align: nat)
    requires WellFormed(m, align)
    ensures Parsed(Print(m, align)) ==
            Ok(File(m.version, TablesOf(m.entries, NO_TABLES), m.tensors, align, AlignUp(|Front(m)|, align)))
    ensures Print(m, align)[AlignUp(|Front(m)|, align)..] == m.blob
  {
    hide ReadFile, Front, TablesOf, TensorsOk, EntryOk, Inside, PairwiseDisjoint, Alignment;
    var b := Print(m, align);
    AlignsUp(|Front(m)|, align);
    assert b[..|Front(m)|] == Front(m);
    FrontBack(b, m, align);
    assert |b| == AlignUp(|Front(m)|, align) + |m.blob|;
  }

  // ---------------------------------------------------------------- what the tables hold

  predicate DistinctKeys(es: seq<Entry>) {
    forall i, j | 0 <= i < j < |es| :: es[i].key != es[j].key
  }

  /** The table an array goes to: 0 strings, 1 floats, 2 integers, 3 none. */
  function Shelf(elem: nat): nat {
    if elem == STRING then 0
    else if elem == FLOAT32 || elem == FLOAT64 then 1
    else if elem == ARRAY || elem == BOOL then 3
    else 2
  }

  function Arrays(t: Tables, shelf: nat): map<Bytes, seq<MetaValue>> {
    if shelf == 0 then t.strings else if shelf == 1 then t.floats else if shelf == 2 then t.ints else map[]
  }

  /** `key` is unknown to every table. */
  predicate Fresh(t: Tables, key: Bytes) {
    key !in t.meta && key !in t.strings && key !in t.floats && key !in t.ints
  }

  /** `t` holds exactly what entry `e` says under `e.key`. */
  predicate Holds(t: Tables, e: Entry) {
    match e.value
    case Arr(elem, items) =>
      && e.key !in t.meta
      && forall shelf: nat | shelf < 3 ::
           (e.key in Arrays(t, shelf) <==> shelf == Shelf(elem))
           && (shelf == Shelf(elem) ==> Arrays(t, shelf)[e.key] == KeptItems(items))
    case _ =>
      && e.key in t.meta && t.meta[e.key] == Kept(e.value)
      && e.key !in t.strings && e.key !in t.floats && e.key !in t.ints
  }

  lemma FiledHolds(t: Tables, e: Entry)
    requires Fresh(t, e.key)
    ensures Holds(Filed(t, e), e)
  {
    hide Kept;
    if e.value.Arr? {
      var items := KeptItems(e.value.items);
      assert [] + items == items;
    }
  }

  lemma ShelfElsewhere(t: Tables, e: Entry, key: Bytes, shelf: nat)
    requires e.key != key
    ensures key in Arrays(t, shelf) <==> key in Arrays(Filed(t, e), shelf)
    ensures key in Arrays(t, shelf) ==> Arrays(t, shelf)[key] == Arrays(Filed(t, e), shelf)[key]
    ensures key in t.meta <==> key in Filed(t, e).meta
    ensures key in t.meta ==> t.meta[key] == Filed(t, e).meta[key]
  {
    hide Kept, KeptItems;
  }

  lemma FiledElsewhere(t: Tables, e: Entry, d: Entry)
    requires e.key != d.key
    ensures Fresh(t, d.key) ==> Fresh(Filed(t, e), d.key)
    ensures Holds(t, d) ==> Holds(Filed(t, e), d)
  {
    hide Kept, KeptItems, Filed, Shelf;
    forall shelf: nat
      ensures d.key in Arrays(t, shelf) <==> d.key in Arrays(Filed(t, e), shelf)
      ensures d.key in Arrays(t, shelf) ==> Arrays(t, shelf)[d.key] == Arrays(Filed(t, e), shelf)[d.key]
    {
      ShelfElsewhere(t, e, d.key, shelf);
    }
    ShelfElsewhere(t, e, d.key, 0);
    ShelfElsewhere(t, e, d.key, 1);
    ShelfElsewhere(t, e, d.key, 2);
  }

  /** With distinct keys every entry is found again under its own key, in the table of its kind and in no other. */
  lemma {:induction false} TablesHold(es: seq<Entry>, t: Tables, i: nat)
    requires i < |es| && DistinctKeys(es)
    requires forall j | 0 <= j < |es| :: Fresh(t, es[j].key)
    ensures Holds(TablesOf(es, t), es[i])
    decreases es
  {
    hide Holds, Fresh, Filed;
    var t' := Filed(t, es[0]);
    forall j | 0 <= j < |es[1..]|
      ensures Fresh(t', es[1..][j].key)
    {
      FiledElsewhere(t, es[0], es[j + 1]);
    }
    if i > 0 {
      TablesHold(es[1..], t', i - 1);
    } else {
      FiledHolds(t, es[0]);
      Stays(es[1..], t', es[0]);
    }
  }

  lemma {:induction false} Stays(es: seq<Entry>, t: Tables, d: Entry)
    requires Holds(t, d) && forall j | 0 <= j < |es| :: es[j].key != d.key
    ensures Holds(TablesOf(es, t), d)
    decreases es
  {
    hide Holds, Filed;
    if es != [] {
      FiledElsewhere(t, es[0], d);
      Stays(es[1..], Filed(t, es[0]), d);
    }
  }

  /** Nothing is found under a key no entry has. */
  lemma {:induction false} NothingElse(es: seq<Entry>, t: Tables, key: Bytes)
    requires Fresh(t, key) && forall j | 0 <= j < |es| :: es[j].key != key
    ensures Fresh(TablesOf(es, t), key)
    decreases es
  {
    hide Fresh, Filed;
    if es != [] {
      FiledElsewhere(t, es[0], Entry(key, Str([])));
      NothingElse(es[1..], Filed(t, es[0]), key);
    }
  }

  /** The whole promise for a model with distinct keys: each scalar, kept array and tensor comes back. */
  lemma RoundTrip(m: Image, align: nat)
    requires WellFormed(m, align) && DistinctKeys(m.entries)
    ensures var f := Parsed(Print(m, align));
            && f.Ok? && f.value.version == m.version && f.value.tensors == m.tensors
            && (forall i | 0 <= i < |m.entries| :: Holds(f.value.tables, m.entries[i]))
            && forall key | (forall j | 0 <= j < |m.entries| :: m.entries[j].key != key) :: Fresh(f.value.tables, key)
  {
    hide Print, Parsed, Holds, TablesOf, WellFormed;
    ParserInvertsPrinter(m, align);
    var es := m.entries;
    forall i | 0 <= i < |es|
      ensures Holds(TablesOf(es, NO_TABLES), es[i])
    {
      TablesHold(es, NO_TABLES, i);
    }
    forall key | forall j | 0 <= j < |es| :: es[j].key != key
      ensures Fresh(TablesOf(es, NO_TABLES), key)
    {
      NothingElse(es, NO_TABLES, key);
    }
  }
}
