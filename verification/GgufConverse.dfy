/** The converse of the round trip: whatever the parser accepts is a printed image, so it accepts exactly those. */
module GgufConverse {
  import opened Common
  import opened GgufFormat
  import opened GgufLayout
  import opened GgufRoundTrip

  // ---------------------------------------------------------------- pieces

  lemma OccursJoin(b: Bytes, p: Bytes, q: Bytes, at: nat)
    requires OccursAt(b, p, at) && OccursAt(b, q, at + |p|)
    ensures OccursAt(b, p + q, at)
  {
    assert b[at..at + |p| + |q|] == b[at..at + |p|] + b[at + |p|..at + |p| + |q|];
  }

  lemma {:induction false} LEInverse(bs: Bytes)
    ensures LE(FromLE(bs), |bs|) == bs
  {
    if bs != [] {
      LEInverse(bs[1..]);
      assert (bs[0] + 256 * FromLE(bs[1..])) / 256 == FromLE(bs[1..]);
    }
  }

  lemma NumWas(b: Bytes, off: nat, k: nat)
    ensures ReadNum(b, off, k).Ok? ==>
              var n := ReadNum(b, off, k).value; n.value < Pow256(k) && OccursAt(b, LE(n.value, k), off)
  {
    if off + k <= |b| {
      LEInverse(b[off..off + k]);
      FromLEBound(b[off..off + k]);
    }
  }

  lemma StrWas(b: Bytes, off: nat)
    ensures ReadStr(b, off).Ok? ==>
              var s := ReadStr(b, off).value;
              |s.value| <= MAX_STRING && OccursAt(b, PrintStr(s.value), off) && s.end == off + |PrintStr(s.value)|
  {
    hide LE, FromLE;
    NumWas(b, off, 8);
    if ReadStr(b, off).Ok? {
      var s := ReadStr(b, off).value.value;
      assert OccursAt(b, s, off + 8);
      OccursJoin(b, LE(|s|, 8), s, off);
    }
  }

  lemma ArrayHeadWas(b: Bytes, off: nat)
    ensures ReadArrayHead(b, off).Ok? ==>
              var h := ReadArrayHead(b, off).value.value;
              h.elem < Pow256(4) && h.count <= MAX_ARRAY && OccursAt(b, LE(h.elem, 4) + LE(h.count, 8), off)
  {
    hide LE, ReadNum, Pow256, OccursAt;
    NumWas(b, off, 4);
    NumWas(b, off + 4, 8);
    if ReadArrayHead(b, off).Ok? {
      var h := ReadArrayHead(b, off).value.value;
      NumEnds(b, off, 4);
      OccursJoin(b, LE(h.elem, 4), LE(h.count, 8), off);
    }
  }

  lemma NumEnds(b: Bytes, off: nat, k: nat)
    ensures ReadNum(b, off, k).Ok? ==> ReadNum(b, off, k).value.end == off + k <= |b|
  {
  }

  /** A value that was read is the printed form of what was kept of it. */
  lemma {:induction false} ValueWas(b: Bytes, off: nat, tag: nat) returns (v: Value)
    requires ReadValue(b, off, tag).Ok?
    ensures WellTyped(v) && TagOf(v) == tag && OccursAt(b, PrintValue(v), off)
    ensures ReadValue(b, off, tag) == Ok(Read(Kept(v), off + |PrintValue(v)|))
    decreases |b| - off, 0
  {
    hide OccursAt, ReadNum, ReadStr, ReadArrayHead, ReadMany, PodValue, LE, WellTypedItems;
    if PodSize(tag) > 0 {
      NumWas(b, off, PodSize(tag));
      NumEnds(b, off, PodSize(tag));
      v := Pod(tag, ReadNum(b, off, PodSize(tag)).value.value);
    } else if tag == STRING {
      StrWas(b, off);
      v := Str(ReadStr(b, off).value.value);
    } else {
      ArrayHeadWas(b, off);
      var h := ReadArrayHead(b, off).value.value;
      var items := ManyWas(b, off + 12, h.elem, h.count);
      v := Arr(h.elem, items);
      OccursJoin(b, LE(h.elem, 4) + LE(|items|, 8), PrintItems(items), off);
    }
  }

  lemma {:induction false} ManyWas(b: Bytes, off: nat, tag: nat, n: nat) returns (items: seq<Value>)
    requires off <= |b| && ReadMany(b, off, tag, n).Ok?
    ensures |items| == n && WellTypedItems(tag, items) && OccursAt(b, PrintItems(items), off)
    ensures ReadMany(b, off, tag, n) == Ok(Read(KeptItems(items), off + |PrintItems(items)|))
    decreases |b| - off, n
  {
    hide ReadValue, PrintValue, Kept, WellTyped;
    if n == 0 {
      items := [];
    } else {
      var v := ValueWas(b, off, tag);
      var rest := ManyWas(b, off + |PrintValue(v)|, tag, n - 1);
      items := [v] + rest;
      assert items[1..] == rest;
      OccursJoin(b, PrintValue(v), PrintItems(rest), off);
    }
  }

  lemma EntryWas(b: Bytes, off: nat, t: Tables) returns (e: Entry)
    requires off <= |b| && ReadEntry(b, off, t).Ok?
    ensures EntryOk(e) && OccursAt(b, PrintEntry(e), off)
    ensures ReadEntry(b, off, t) == Ok(Read(Filed(t, e), off + |PrintEntry(e)|))
  {
    hide OccursAt, ReadNum, ReadStr, ReadValue, ReadArrayHead, ReadMany, PrintStr, PrintValue, LE, FileArray,
      WellTyped, Kept, KeptItems;
    StrWas(b, off);
    var key := ReadStr(b, off).value;
    NumWas(b, key.end, 4);
    NumEnds(b, key.end, 4);
    var tag := ReadNum(b, key.end, 4).value.value;
    if tag != ARRAY {
      var v := ValueWas(b, key.end + 4, tag);
      NotArray(v);
      e := Entry(key.value, v);
    } else {
      var v := ArrayWas(b, key.end + 4);
      e := Entry(key.value, v);
    }
    OccursJoin(b, PrintStr(e.key), LE(tag, 4), off);
    OccursJoin(b, PrintStr(e.key) + LE(tag, 4), PrintValue(e.value), off);
  }

  lemma NotArray(v: Value)
    requires WellTyped(v) && TagOf(v) != ARRAY
    ensures !v.Arr?
  {
  }

  lemma ArrayWas(b: Bytes, off: nat) returns (v: Value)
    requires ReadArrayHead(b, off).Ok?
    requires var h := ReadArrayHead(b, off).value; ReadMany(b, h.end, h.value.elem, h.value.count).Ok?
    ensures v.Arr? && WellTyped(v) && OccursAt(b, PrintValue(v), off)
    ensures ReadArrayHead(b, off) == Ok(Read(ArrayHead(v.elem, |v.items|), off + 12))
    ensures off + 12 <= |b|
    ensures ReadMany(b, off + 12, v.elem, |v.items|) == Ok(Read(KeptItems(v.items), off + |PrintValue(v)|))
  {
    hide OccursAt, ReadMany, LE, WellTypedItems;
    ArrayHeadWas(b, off);
    var h := ReadArrayHead(b, off).value;
    var items := ManyWas(b, h.end, h.value.elem, h.value.count);
    v := Arr(h.value.elem, items);
    OccursJoin(b, LE(v.elem, 4) + LE(|items|, 8), PrintItems(items), off);
  }

  lemma {:induction false} EntriesWas(b: Bytes, off: nat, n: nat, t: Tables) returns (es: seq<Entry>)
    requires off <= |b| && ReadEntries(b, off, n, t).Ok?
    ensures |es| == n && (forall i | 0 <= i < |es| :: EntryOk(es[i])) && OccursAt(b, PrintEntries(es), off)
    ensures ReadEntries(b, off, n, t) == Ok(Read(TablesOf(es, t), off + |PrintEntries(es)|))
    decreases n
  {
    hide ReadEntry, PrintEntry, Filed, EntryOk;
    if n == 0 {
      es := [];
    } else {
      var e := EntryWas(b, off, t);
      var rest := EntriesWas(b, off + |PrintEntry(e)|, n - 1, Filed(t, e));
      es := [e] + rest;
      assert es[1..] == rest;
      OccursJoin(b, PrintEntry(e), PrintEntries(rest), off);
    }
  }

  // ---------------------------------------------------------------- tensors

  lemma {:induction false} DimsWas(b: Bytes, off: nat, n: nat, dims: seq<nat>)
    requires off <= |b| && ReadDims(b, off, n, dims).Ok?
    ensures var all := ReadDims(b, off, n, dims).value.value;
            OccursAt(b, PrintDims(all[|dims|..]), off) && |PrintDims(all[|dims|..])| == 8 * n
    decreases n
  {
    hide ReadNum, LE, Product;
    var all := ReadDims(b, off, n, dims).value.value;
    if n > 0 {
      NumWas(b, off, 8);
      NumEnds(b, off, 8);
      var d := ReadNum(b, off, 8).value.value;
      DimsWas(b, off + 8, n - 1, dims + [d]);
      assert all[|dims|..][1..] == all[|dims| + 1..] && all[|dims|] == d;
      OccursJoin(b, LE(d, 8), PrintDims(all[|dims| + 1..]), off);
    }
  }

  lemma TensorWas(b: Bytes, off: nat, align: nat, seen: set<Bytes>)
    requires off <= |b| && align > 0 && ReadTensor(b, off, align, seen).Ok?
    ensures var t := ReadTensor(b, off, align, seen).value;
            |t.value.name| <= MAX_STRING && OccursAt(b, PrintTensor(t.value), off)
            && t.end == off + |PrintTensor(t.value)|
  {
    hide OccursAt, ReadNum, ReadStr, ReadDims, PrintStr, PrintDims, LE, Product, TypeTraits;
    var t := ReadTensor(b, off, align, seen).value.value;
    StrWas(b, off);
    var at := ReadStr(b, off).value.end;
    NumWas(b, at, 4);
    NumEnds(b, at, 4);
    var n := |t.dims|;
    assert n == ReadNum(b, at, 4).value.value;
    DimsWas(b, at + 4, n, []);
    assert t.dims[0..] == t.dims;
    var typ := at + 4 + 8 * n;
    NumWas(b, typ, 4);
    NumEnds(b, typ, 4);
    NumWas(b, typ + 4, 8);
    NumEnds(b, typ + 4, 8);
    OccursJoin(b, PrintStr(t.name), LE(n, 4), off);
    OccursJoin(b, PrintStr(t.name) + LE(n, 4), PrintDims(t.dims), off);
    OccursJoin(b, PrintStr(t.name) + LE(n, 4) + PrintDims(t.dims), LE(t.typ, 4), off);
    OccursJoin(b, PrintStr(t.name) + LE(n, 4) + PrintDims(t.dims) + LE(t.typ, 4), LE(t.offset, 8), off);
  }

  lemma {:induction false} TensorsWas(b: Bytes, off: nat, n: nat, align: nat, ts: seq<Tensor>)
    requires off <= |b| && align > 0 && ReadTensors(b, off, n, align, ts).Ok?
    ensures var all := ReadTensors(b, off, n, align, ts).value;
            && |all.value| == |ts| + n
            && (forall i | |ts| <= i < |all.value| :: |all.value[i].name| <= MAX_STRING)
            && OccursAt(b, PrintTensors(all.value[|ts|..]), off)
            && all.end == off + |PrintTensors(all.value[|ts|..])|
    decreases n
  {
    hide ReadTensor, PrintTensor;
    var all := ReadTensors(b, off, n, align, ts).value.value;
    if n > 0 {
      TensorWas(b, off, align, Names(ts));
      var t := ReadTensor(b, off, align, Names(ts)).value;
      TensorsWas(b, t.end, n - 1, align, ts + [t.value]);
      assert all[|ts|..][1..] == all[|ts| + 1..] && all[|ts|] == t.value;
      OccursJoin(b, PrintTensor(t.value), PrintTensors(all[|ts| + 1..]), off);
    }
  }

  // ---------------------------------------------------------------- whole files

  lemma HeaderWas(b: Bytes, m: Image)
    requires ReadHeader(b) == Ok(Read(Header(m.version, |m.tensors|, |m.entries|), 24))
    ensures 2 <= m.version <= 3 && |m.entries| <= MAX_COUNT && |m.tensors| <= MAX_COUNT
    ensures OccursAt(b, PrintHeader(m), 0)
  {
    hide OccursAt, ReadNum, LE;
    NumWas(b, 4, 4);
    NumWas(b, 8, 8);
    NumWas(b, 16, 8);
    MagicWas(b);
    OccursJoin(b, MAGIC, LE(m.version, 4), 0);
    OccursJoin(b, MAGIC + LE(m.version, 4), LE(|m.tensors|, 8), 0);
    OccursJoin(b, MAGIC + LE(m.version, 4) + LE(|m.tensors|, 8), LE(|m.entries|, 8), 0);
  }

  lemma MagicWas(b: Bytes)
    requires ReadHeader(b).Ok?
    ensures OccursAt(b, MAGIC, 0)
  {
    hide ReadNum;
  }

  /** `b` holds the image in front of its data section, `f` is what the image says, and the rest is its blob. The
      bytes between front and data are padding of any content. */
  ghost predicate Describes(m: Image, b: Bytes, f: File) {
    && WellFormed(m, f.align)
    && OccursAt(b, Front(m), 0)
    && f == File(m.version, TablesOf(m.entries, NO_TABLES), m.tensors, f.align, AlignUp(|Front(m)|, f.align))
    && f.dataOffset <= |b| && m.blob == b[f.dataOffset..]
  }

  lemma FrontWas(b: Bytes) returns (m: Image)
    requires ReadFile(b).Ok?
    ensures var f := ReadFile(b).value;
            && f.end == |Front(m)| && OccursAt(b, Front(m), 0) && m.blob == []
            && f.value.align > 0 && Alignment(TablesOf(m.entries, NO_TABLES).meta) == Ok(f.value.align)
            && f.value == File(m.version, TablesOf(m.entries, NO_TABLES), m.tensors, f.value.align,
                               AlignUp(|Front(m)|, f.value.align))
            && 2 <= m.version <= 3 && |m.entries| <= MAX_COUNT && |m.tensors| <= MAX_COUNT
            && (forall i | 0 <= i < |m.entries| :: EntryOk(m.entries[i]))
            && forall i | 0 <= i < |m.tensors| :: |m.tensors[i].name| <= MAX_STRING
  {
    hide OccursAt, ReadHeader, ReadEntries, ReadTensors, EntryOk, Alignment, TablesOf, PrintEntries, PrintTensors,
      PrintHeader, AlignUp;
    var head := ReadHeader(b).value.value;
    var es := EntriesWas(b, 24, head.metaCount, NO_TABLES);
    var at := 24 + |PrintEntries(es)|;
    var align := Alignment(TablesOf(es, NO_TABLES).meta).value;
    TensorsWas(b, at, head.tensorCount, align, []);
    var ts := ReadTensors(b, at, head.tensorCount, align, []).value.value;
    assert ts[0..] == ts;
    m := Image(head.version, es, ts, []);
    HeaderWas(b, m);
    HeaderSize(m);
    OccursJoin(b, PrintHeader(m), PrintEntries(es), 0);
    OccursJoin(b, PrintHeader(m) + PrintEntries(es), PrintTensors(ts), 0);
  }

  lemma HeaderSize(m: Image)
    ensures |PrintHeader(m)| == 24
  {
  }

  /** Everything accepted is described by a well-formed image. */
  lemma AcceptedIsPrinted(b: Bytes) returns (m: Image)
    requires Parsed(b).Ok?
    ensures Describes(m, b, Parsed(b).value)
  {
    hide ReadFile, TablesOf, Front, Alignment, TensorsOk, Inside, PairwiseDisjoint, EntryOk, OccursAt, AlignUp;
    var f := Parsed(b).value;
    var front := FrontWas(b);
    FileTensorsOk(b);
    m := front.(blob := b[f.dataOffset..]);
    SameFront(front, m);
  }

  lemma SameFront(m: Image, n: Image)
    requires n == m.(blob := n.blob)
    ensures Front(m) == Front(n)
  {
  }

  /** And everything so described is accepted, as what the image says. */
  lemma PrintedIsAccepted(m: Image, b: Bytes, f: File)
    requires Describes(m, b, f)
    ensures Parsed(b) == Ok(f)
  {
    hide ReadFile, TablesOf, Front, Alignment, TensorsOk, EntryOk, OccursAt, AlignUp;
    FrontBack(b, m, f.align);
  }

  /** The parser, exactly: it returns `f` for `b` if and only if `b` is the printed form, up to padding, of a
      well-formed image that says `f`. */
  lemma ParsedExactly(b: Bytes, f: File)
    ensures Parsed(b) == Ok(f) <==> exists m :: Describes(m, b, f)
  {
    hide Parsed, Describes;
    if Parsed(b) == Ok(f) {
      var m := AcceptedIsPrinted(b);
      assert Describes(m, b, f);
    }
    forall m | Describes(m, b, f)
      ensures Parsed(b) == Ok(f)
    {
      PrintedIsAccepted(m, b, f);
    }
  }
}
