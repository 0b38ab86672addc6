/** The parser itself: a bounds-checked cursor and 64-bit arithmetic, against the format. */
module GgufParser {
  import opened Common
  import opened Numbers
  import opened GgufFormat
  import opened GgufTruncation
  import opened GgufLayout

  /** Images the address space can hold. */
  const MAX_IMAGE: nat := 0x4000_0000_0000_0000

  /** `r` and the new offset are what the format's reader gives. */
  predicate Reads<T(==)>(spec: Result<Read<T>>, r: Result<T>, off: nat) {
    match spec
    case Err(_) => r.Err?
    case Ok(x) => r == Ok(x.value) && off == x.end
  }

  class Cursor {
    const p: Bytes
    var off: nat

    ghost predicate Valid()
      reads this
    {
      off <= |p| < MAX_IMAGE
    }

    constructor (p: Bytes)
      requires |p| < MAX_IMAGE
      ensures this.p == p && off == 0 && Valid()
    {
      this.p, off := p, 0;
    }

    /** True when `k` more bytes exist; the sum cannot wrap. */
    method Need(k: nat) returns (ok: bool)
      requires Valid() && k <= MAX_STRING
      ensures ok <==> off + k <= |p|
    {
      ok := !(Add64(off, k) > |p|);
    }

    method Num(k: nat) returns (r: Result<nat>)
      requires Valid() && k <= 8
      modifies this
      ensures Valid() && Reads(ReadNum(p, old(off), k), r, off)
    {
      var ok := Need(k);
      if !ok {
        return Err("truncated file");
      }
      r := Ok(FromLE(p[off..off + k]));
      off := off + k;
    }

    method Str() returns (r: Result<Bytes>)
      requires Valid()
      modifies this
      ensures Valid() && Reads(ReadStr(p, old(off)), r, off)
    {
      var len := Num(8);
      if len.Err? {
        return Err(len.reason);
      }
      if len.value > MAX_STRING {
        return Err("implausible string length");
      }
      var ok := Need(len.value);
      if !ok {
        return Err("truncated file");
      }
      r := Ok(p[off..off + len.value]);
      off := off + len.value;
    }

    method Seek(o: nat) returns (ok: bool)
      requires Valid()
      modifies this
      ensures Valid() && (ok <==> o <= |p|) && (ok ==> off == o)
    {
      ok := o <= |p|;
      if ok { off := o; }
    }
  }

  /** `vals` in front of what is still to be read. */
  function Prepend(vals: seq<MetaValue>, r: Result<Read<seq<MetaValue>>>): Result<Read<seq<MetaValue>>> {
    match r case Err(e) => Err(e) case Ok(x) => Ok(Read(vals + x.value, x.end))
  }

  lemma ManyStep(b: Bytes, off: nat, tag: nat, n: nat, vals: seq<MetaValue>)
    requires off <= |b| && n > 0
    ensures var v := ReadValue(b, off, tag);
            Prepend(vals, ReadMany(b, off, tag, n)) ==
            (match v case Err(e) => Err(e) case Ok(x) => Prepend(vals + [x.value], ReadMany(b, x.end, tag, n - 1)))
  {
    hide ReadValue;
    var v := ReadValue(b, off, tag);
    if v.Ok? && ReadMany(b, v.value.end, tag, n - 1).Ok? {
      var rest := ReadMany(b, v.value.end, tag, n - 1).value.value;
      assert vals + ([v.value.value] + rest) == vals + [v.value.value] + rest;
    }
  }

  lemma ManyNone(b: Bytes, off: nat, tag: nat, vals: seq<MetaValue>, whole: Result<Read<seq<MetaValue>>>)
    requires off <= |b|
    ensures Prepend(vals, ReadMany(b, off, tag, 0)) == Ok(Read(vals, off))
    ensures Prepend([], whole) == whole
  {
    assert vals + [] == vals;
    if whole.Ok? { assert [] + whole.value.value == whole.value.value; }
  }

  /** `read_value`: one value of a given type, arrays consumed element by element and dropped. */
  method ReadOne(c: Cursor, tag: nat) returns (r: Result<MetaValue>)
    requires c.Valid()
    modifies c
    ensures c.Valid() && Reads(ReadValue(c.p, old(c.off), tag), r, c.off)
    decreases |c.p| - c.off, 0
  {
    hide FromLE, ReadMany, PodValue;
    if PodSize(tag) > 0 {
      var raw := c.Num(PodSize(tag));
      if raw.Err? {
        return Err(raw.reason);
      }
      return Ok(PodValue(tag, raw.value));
    }
    if tag == STRING {
      var s := c.Str();
      if s.Err? {
        return Err(s.reason);
      }
      return Ok(StrV(s.value));
    }
    if tag != ARRAY {
      return Err("unknown metadata type");
    }
    var head := ReadHead(c);
    if head.Err? {
      return Err(head.reason);
    }
    var items := ReadAll(c, head.value.elem, head.value.count);
    if items.Err? {
      return Err(items.reason);
    }
    r := Ok(Nothing);
  }

  /** Element type and length of an array. */
  method ReadHead(c: Cursor) returns (r: Result<ArrayHead>)
    requires c.Valid()
    modifies c
    ensures c.Valid() && Reads(ReadArrayHead(c.p, old(c.off)), r, c.off)
  {
    var elem := c.Num(4);
    if elem.Err? {
      return Err(elem.reason);
    }
    var n := c.Num(8);
    if n.Err? {
      return Err(n.reason);
    }
    if n.value > MAX_ARRAY {
      return Err("implausible array length");
    }
    r := Ok(ArrayHead(elem.value, n.value));
  }

  /** The element loops: `n` values of one type. */
  method ReadAll(c: Cursor, tag: nat, n: nat) returns (r: Result<seq<MetaValue>>)
    requires c.Valid()
    modifies c
    ensures c.Valid() && Reads(ReadMany(c.p, old(c.off), tag, n), r, c.off)
    decreases |c.p| - c.off, n + 1
  {
    hide ReadValue, ReadMany;
    var vals: seq<MetaValue> := [];
    ghost var whole := ReadMany(c.p, c.off, tag, n);
    ManyNone(c.p, c.off, tag, vals, whole);
    for i := 0 to n
      invariant c.Valid() && old(c.off) <= c.off
      invariant whole == Prepend(vals, ReadMany(c.p, c.off, tag, n - i))
    {
      ManyStep(c.p, c.off, tag, n - i, vals);
      var v := ReadOne(c, tag);
      if v.Err? {
        return Err(v.reason);
      }
      vals := vals + [v.value];
    }
    ManyNone(c.p, c.off, tag, vals, whole);
    r := Ok(vals);
  }

  // ---------------------------------------------------------------- metadata

  method ParseEntry(c: Cursor, t0: Tables) returns (r: Result<Tables>)
    requires c.Valid()
    modifies c
    ensures c.Valid() && Reads(ReadEntry(c.p, old(c.off), t0), r, c.off)
  {
    hide ReadValue, ReadMany, ReadStr, ReadNum, ReadArrayHead, FileArray;
    var key := c.Str();
    if key.Err? {
      return Err(key.reason);
    }
    var tag := c.Num(4);
    if tag.Err? {
      return Err(tag.reason);
    }
    if tag.value != ARRAY {
      var v := ReadOne(c, tag.value);
      if v.Err? {
        return Err(v.reason);
      }
      return Ok(t0.(meta := t0.meta[key.value := v.value]));
    }
    var head := ReadHead(c);
    if head.Err? {
      return Err(head.reason);
    }
    var items := ReadAll(c, head.value.elem, head.value.count);
    if items.Err? {
      return Err(items.reason);
    }
    r := Ok(FileArray(t0, key.value, head.value.elem, items.value));
  }

  method ParseEntries(c: Cursor, n: nat) returns (r: Result<Tables>)
    requires c.Valid()
    modifies c
    ensures c.Valid() && Reads(ReadEntries(c.p, old(c.off), n, NO_TABLES), r, c.off)
  {
    hide ReadEntry;
    var t := NO_TABLES;
    for i := 0 to n
      invariant c.Valid()
      invariant ReadEntries(c.p, old(c.off), n, NO_TABLES) == ReadEntries(c.p, c.off, n - i, t)
    {
      var entry := ParseEntry(c, t);
      if entry.Err? {
        return Err(entry.reason);
      }
      t := entry.value;
    }
    r := Ok(t);
  }

  // ---------------------------------------------------------------- tensors

  /** `checked_mul`: refuses a product beyond the cap by a division that cannot wrap. */
  method CheckedMul(a: nat, b: nat) returns (r: Result<nat>)
    requires a < TWO64 && b < TWO64
    ensures r.Ok? <==> a * b <= MAX_ELEMENTS
    ensures r.Ok? ==> r.value == a * b
  {
    if a != 0 && b > MAX_ELEMENTS / a {
      OverCap(a, b);
      return Err("overflows");
    }
    if a != 0 { UnderCap(a, b); }
    r := Ok(Mul64(a, b));
  }

  lemma OverCap(a: nat, b: nat)
    requires a > 0 && b > MAX_ELEMENTS / a
    ensures a * b > MAX_ELEMENTS
  {
    var q := MAX_ELEMENTS / a;
    MulLe(q + 1, b, a);
    assert MAX_ELEMENTS == q * a + MAX_ELEMENTS % a;
  }

  lemma UnderCap(a: nat, b: nat)
    requires a > 0 && b <= MAX_ELEMENTS / a
    ensures a * b <= MAX_ELEMENTS
  {
    var q := MAX_ELEMENTS / a;
    MulLe(b, q, a);
    assert MAX_ELEMENTS == q * a + MAX_ELEMENTS % a;
  }

  /** The dimension loop, with the running element count. */
  method ParseDims(c: Cursor, n: nat) returns (r: Result<seq<nat>>, elements: nat)
    requires c.Valid()
    modifies c
    ensures c.Valid() && Reads(ReadDims(c.p, old(c.off), n, []), r, c.off)
    ensures r.Ok? ==> elements == Product(r.value)
  {
    hide ReadNum;
    var dims: seq<nat> := [];
    elements := 1;
    r := Err("");
    for d := 0 to n
      invariant c.Valid()
      invariant ReadDims(c.p, old(c.off), n, []) == ReadDims(c.p, c.off, n - d, dims)
      invariant elements == Product(dims) <= MAX_ELEMENTS
    {
      ReadNumSmall(c.p, c.off, 8);
      EightBytes();
      var dim := c.Num(8);
      if dim.Err? {
        return Err(dim.reason), elements;
      }
      if dim.value == 0 {
        return Err("zero dimension"), elements;
      }
      var product := CheckedMul(elements, dim.value);
      if product.Err? {
        return Err(product.reason), elements;
      }
      assert (dims + [dim.value])[..|dims|] == dims;
      elements := product.value;
      dims := dims + [dim.value];
    }
    r := Ok(dims);
  }

  method ParseTensor(c: Cursor, align: nat, seen: set<Bytes>) returns (r: Result<Tensor>)
    requires c.Valid() && align > 0
    modifies c
    ensures c.Valid() && Reads(ReadTensor(c.p, old(c.off), align, seen), r, c.off)
  {
    hide ReadNum, ReadStr, ReadDims, Product, TypeTraits;
    var name := c.Str();
    if name.Err? {
      return Err(name.reason);
    }
    if name.value in seen {
      return Err("duplicate tensor name");
    }
    var rank := c.Num(4);
    if rank.Err? {
      return Err(rank.reason);
    }
    if rank.value == 0 || rank.value > 4 {
      return Err("bad tensor rank");
    }
    ReadDimsOkEmpty(c.p, c.off, rank.value);
    var dims, elements := ParseDims(c, rank.value);
    if dims.Err? {
      return Err(dims.reason);
    }
    var typ := c.Num(4);
    if typ.Err? {
      return Err(typ.reason);
    }
    var offset := c.Num(8);
    if offset.Err? {
      return Err(offset.reason);
    }
    var traits := TypeTraits(typ.value);
    if traits.bytes == 0 {
      return Err("unsupported tensor type");
    }
    if elements % traits.elems != 0 {
      return Err("partial block");
    }
    TraitsSmall(typ.value);
    var bytes := CheckedMul(elements / traits.elems, traits.bytes);
    if bytes.Err? {
      return Err(bytes.reason);
    }
    if offset.value % align != 0 {
      return Err("misaligned offset");
    }
    r := Ok(Tensor(name.value, dims.value, typ.value, offset.value));
  }

  lemma ReadDimsOkEmpty(b: Bytes, off: nat, n: nat)
    requires off <= |b|
    ensures ReadDims(b, off, n, []).Ok? ==> Product(ReadDims(b, off, n, []).value.value) <= MAX_ELEMENTS
  {
    hide ReadDims;
    assert DimsOk([]);
    ReadDimsOk(b, off, n, []);
  }

  lemma TraitsSmall(t: nat)
    ensures TypeTraits(t).bytes < 1024 && TypeTraits(t).elems <= 256
  {
  }

  method ParseTensors(c: Cursor, n: nat, align: nat) returns (r: Result<seq<Tensor>>)
    requires c.Valid() && align > 0
    modifies c
    ensures c.Valid() && Reads(ReadTensors(c.p, old(c.off), n, align, []), r, c.off)
  {
    hide ReadTensor;
    var ts: seq<Tensor> := [];
    var seen: set<Bytes> := {};
    for i := 0 to n
      invariant c.Valid() && seen == Names(ts)
      invariant ReadTensors(c.p, old(c.off), n, align, []) == ReadTensors(c.p, c.off, n - i, align, ts)
    {
      var t := ParseTensor(c, align, seen);
      if t.Err? {
        return Err(t.reason);
      }
      NamesSnoc(ts, t.value);
      seen := seen + {t.value.name};
      ts := ts + [t.value];
    }
    r := Ok(ts);
  }

  lemma NamesSnoc(ts: seq<Tensor>, t: Tensor)
    ensures Names(ts + [t]) == Names(ts) + {t.name}
  {
    var all := ts + [t];
    forall x | x in Names(ts) + {t.name}
      ensures x in Names(all)
    {
      if x in Names(ts) {
        var i :| 0 <= i < |ts| && ts[i].name == x;
        assert all[i].name == x;
      } else {
        assert all[|ts|].name == x;
      }
    }
    forall x | x in Names(all)
      ensures x in Names(ts) + {t.name}
    {
      var i :| 0 <= i < |all| && all[i].name == x;
      if i < |ts| { assert ts[i].name == x; }
    }
  }

  // ---------------------------------------------------------------- sizes and overlap

  /** `num_elements` and `num_bytes` in wrapping arithmetic. */
  method NumElements(t: Tensor) returns (n: nat)
    requires forall i | 0 <= i < |t.dims| :: 0 < t.dims[i]
    requires t.dims != [] && Product(t.dims) <= MAX_ELEMENTS
    ensures n == Product(t.dims)
  {
    n := 1;
    for d := 0 to |t.dims|
      invariant n == Product(t.dims[..d])
    {
      PrefixProduct(t.dims, d + 1);
      assert t.dims[..d + 1][..d] == t.dims[..d];
      n := Mul64(n, t.dims[d]);
    }
    assert t.dims[..|t.dims|] == t.dims;
  }

  method NumBytes(t: Tensor, ghost align: nat) returns (n: nat)
    requires align > 0 && (TypeTraits(t.typ).bytes == 0 || TensorOk(t, align))
    ensures n == TensorBytes(t)
  {
    var traits := TypeTraits(t.typ);
    if traits.bytes == 0 {
      return 0;
    }
    var elements := NumElements(t);
    n := Mul64(elements / traits.elems, traits.bytes);
  }

  /** Inserts a tensor behind those that start no later. */
  function Insert(t: Tensor, sorted: seq<Tensor>): seq<Tensor> {
    if sorted == [] then [t]
    else
      var n := |sorted| - 1;
      if sorted[n].offset <= t.offset then sorted + [t] else Insert(t, sorted[..n]) + [sorted[n]]
  }

  /** The call to `std::sort`; any sorted reordering would do. */
  function Sorted(ts: seq<Tensor>): seq<Tensor> {
    if ts == [] then [] else Insert(ts[|ts| - 1], Sorted(ts[..|ts| - 1]))
  }

  lemma {:induction false} InsertMultiset(t: Tensor, sorted: seq<Tensor>)
    ensures multiset(Insert(t, sorted)) == multiset(sorted) + multiset{t}
  {
    if sorted != [] {
      var n := |sorted| - 1;
      assert sorted == sorted[..n] + [sorted[n]];
      InsertMultiset(t, sorted[..n]);
    }
  }

  lemma InsertBelow(t: Tensor, front: seq<Tensor>, top: nat)
    requires t.offset <= top && forall j | 0 <= j < |front| :: front[j].offset <= top
    ensures forall i | 0 <= i < |Insert(t, front)| :: Insert(t, front)[i].offset <= top
  {
    InsertMultiset(t, front);
    var all := Insert(t, front);
    forall i | 0 <= i < |all|
      ensures all[i].offset <= top
    {
      assert all[i] in multiset(all);
      assert all[i] == t || all[i] in multiset(front);
    }
  }

  lemma {:induction false} InsertSorted(t: Tensor, sorted: seq<Tensor>)
    requires SortedByOffset(sorted)
    ensures SortedByOffset(Insert(t, sorted))
  {
    if sorted != [] {
      var n := |sorted| - 1;
      InsertSorted(t, sorted[..n]);
      if sorted[n].offset > t.offset {
        InsertBelow(t, sorted[..n], sorted[n].offset);
      }
    }
  }

  lemma {:induction false} SortSorts(ts: seq<Tensor>)
    ensures SortedByOffset(Sorted(ts)) && multiset(Sorted(ts)) == multiset(ts)
  {
    if ts != [] {
      var n := |ts| - 1;
      assert ts == ts[..n] + [ts[n]];
      SortSorts(ts[..n]);
      InsertSorted(ts[n], Sorted(ts[..n]));
      InsertMultiset(ts[n], Sorted(ts[..n]));
    }
  }

  /** Every tensor inside the blob: the comparisons are arranged so that none can wrap. */
  method AllInside(ts: seq<Tensor>, blob: nat, align: nat) returns (ok: bool)
    requires align > 0 && TensorsOk(ts, align) && blob < MAX_IMAGE
    ensures ok <==> forall i | 0 <= i < |ts| :: Inside(ts[i], blob)
  {
    hide TensorOk, TensorBytes;
    for i := 0 to |ts|
      invariant forall j | 0 <= j < i :: Inside(ts[j], blob)
    {
      var bytes := NumBytes(ts[i], align);
      if ts[i].offset > blob || bytes > blob - ts[i].offset {
        assert !Inside(ts[i], blob);
        return false;
      }
    }
    ok := true;
  }

  /** Sorts by offset and compares neighbours; the sum cannot wrap because every tensor lies inside the blob. */
  method NoneOverlap(ts: seq<Tensor>, blob: nat, align: nat) returns (ok: bool)
    requires align > 0 && TensorsOk(ts, align) && blob < MAX_IMAGE
    requires forall i | 0 <= i < |ts| :: Inside(ts[i], blob)
    ensures ok <==> PairwiseDisjoint(ts)
  {
    hide TensorOk, TensorBytes, Sorted, PairwiseDisjoint;
    var byOffset := Sorted(ts);
    SortSorts(ts);
    SortedTensorsOk(ts, byOffset, blob, align);
    AdjacentDecides(ts, byOffset);
    var i := 1;
    while i < |byOffset|
      invariant 1 <= i
      invariant forall j | 0 < j < i && j < |byOffset| ::
                  byOffset[j - 1].offset + TensorBytes(byOffset[j - 1]) <= byOffset[j].offset
    {
      var bytes := NumBytes(byOffset[i - 1], align);
      if Add64(byOffset[i - 1].offset, bytes) > byOffset[i].offset {
        assert !AdjacentDisjoint(byOffset);
        return false;
      }
      i := i + 1;
    }
    ok := true;
  }

  lemma SortedTensorsOk(ts: seq<Tensor>, sorted: seq<Tensor>, blob: nat, align: nat)
    requires align > 0 && TensorsOk(ts, align) && multiset(sorted) == multiset(ts)
    requires forall i | 0 <= i < |ts| :: Inside(ts[i], blob)
    ensures DistinctElements(ts) && NonEmpty(ts)
    ensures forall i | 0 <= i < |sorted| :: TensorOk(sorted[i], align) && Inside(sorted[i], blob)
  {
    hide TensorOk, TensorBytes;
    forall i | 0 <= i < |ts|
      ensures TensorBytes(ts[i]) > 0
    {
      TensorNonEmpty(ts[i], align);
    }
    forall i | 0 <= i < |sorted|
      ensures TensorOk(sorted[i], align) && Inside(sorted[i], blob)
    {
      assert sorted[i] in multiset(sorted);
      assert sorted[i] in multiset(ts);
      var j :| 0 <= j < |ts| && ts[j] == sorted[i];
    }
  }

  // ---------------------------------------------------------------- the whole file

  method ParseHeader(c: Cursor) returns (r: Result<Header>)
    requires c.Valid() && c.off == 0
    modifies c
    ensures c.Valid() && Reads(ReadHeader(c.p), r, c.off)
  {
    hide ReadNum;
    var ok := c.Need(4);
    if !ok {
      return Err("truncated file");
    }
    if c.p[..4] != MAGIC {
      return Err("bad magic");
    }
    var _ := c.Seek(4);
    var version := c.Num(4);
    if version.Err? {
      return Err(version.reason);
    }
    if version.value < 2 || version.value > 3 {
      return Err("unsupported version");
    }
    var tensors := c.Num(8);
    if tensors.Err? {
      return Err(tensors.reason);
    }
    var metas := c.Num(8);
    if metas.Err? {
      return Err(metas.reason);
    }
    if tensors.value > MAX_COUNT || metas.value > MAX_COUNT {
      return Err("implausible header counts");
    }
    r := Ok(Header(version.value, tensors.value, metas.value));
  }

  /** Rounding up to the alignment does not wrap. */
  lemma AlignUp64(off: nat, align: nat)
    requires off < MAX_IMAGE && 0 < align <= 0x10_0000
    ensures Mul64(Add64(off, align - 1) / align, align) == AlignUp(off, align)
  {
    AlignsUp(off, align);
    assert Add64(off, align - 1) == off + align - 1;
  }

  method ParseFile(c: Cursor) returns (r: Result<File>)
    requires c.Valid() && c.off == 0
    modifies c
    ensures c.Valid() && Reads(ReadFile(c.p), r, c.off)
  {
    hide ReadHeader, ReadEntries, ReadTensors, Add64, Mul64, AlignUp;
    var head := ParseHeader(c);
    if head.Err? {
      return Err(head.reason);
    }
    var tables := ParseEntries(c, head.value.metaCount);
    if tables.Err? {
      return Err(tables.reason);
    }
    var align := Alignment(tables.value.meta);
    if align.Err? {
      return Err(align.reason);
    }
    var ts := ParseTensors(c, head.value.tensorCount, align.value);
    if ts.Err? {
      return Err(ts.reason);
    }
    var dataOffset := Mul64(Add64(c.off, align.value - 1) / align.value, align.value);
    AlignUp64(c.off, align.value);
    r := Ok(File(head.value.version, tables.value, ts.value, align.value, dataOffset));
  }

  /** The parser on any image the address space can hold: no wrapped product or sum changes its verdict. */
  method Parse(b: Bytes) returns (r: Result<File>)
    requires |b| < MAX_IMAGE
    ensures r.Ok? <==> Parsed(b).Ok?
    ensures r.Ok? ==> r == Parsed(b)
  {
    hide ReadFile, TensorsOk, PairwiseDisjoint, Inside;
    var c := new Cursor(b);
    FileTensorsOk(b);
    var f := ParseFile(c);
    if f.Err? {
      return f;
    }
    if f.value.dataOffset > |b| {
      return Err("data section starts past end");
    }
    var blob := |b| - f.value.dataOffset;
    var inside := AllInside(f.value.tensors, blob, f.value.align);
    if !inside {
      return Err("tensor runs past end of file");
    }
    var apart := NoneOverlap(f.value.tensors, blob, f.value.align);
    if !apart {
      return Err("tensors overlap");
    }
    r := f;
  }
}
