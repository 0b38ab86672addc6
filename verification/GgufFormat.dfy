/** The GGUF file format: what the parser accepts and what it keeps, as functions of the bytes. */
module GgufFormat {
  import opened Common

  // ---------------------------------------------------------------- little-endian numbers

  function FromLE(bs: Bytes): nat {
    if bs == [] then 0 else bs[0] + 256 * FromLE(bs[1..])
  }

  function LE(n: nat, k: nat): (bs: Bytes)
    ensures |bs| == k
  {
    if k == 0 then [] else [n % 256] + LE(n / 256, k - 1)
  }

  function Pow256(k: nat): (p: nat)
    ensures p > 0
  {
    if k == 0 then 1 else 256 * Pow256(k - 1)
  }

  lemma {:induction false} FromLEBound(bs: Bytes)
    ensures FromLE(bs) < Pow256(|bs|)
  {
    if bs != [] { FromLEBound(bs[1..]); }
  }

  lemma {:induction false} LERoundTrip(n: nat, k: nat)
    requires n < Pow256(k)
    ensures FromLE(LE(n, k)) == n
  {
    if k > 0 {
      LERoundTrip(n / 256, k - 1);
      assert LE(n, k)[1..] == LE(n / 256, k - 1);
    }
  }

  // ---------------------------------------------------------------- values

  const STRING := 8
  const ARRAY := 9
  const BOOL := 7
  const FLOAT32 := 6
  const FLOAT64 := 12

  /** Bytes of a fixed-size value type; 0 for the other tags. */
  function PodSize(tag: nat): nat {
    if tag == 0 || tag == 1 || tag == BOOL then 1
    else if tag == 2 || tag == 3 then 2
    else if tag == 4 || tag == 5 || tag == FLOAT32 then 4
    else if tag == 10 || tag == 11 || tag == FLOAT64 then 8
    else 0
  }

  /** A metadata value as the parser keeps it. A float is kept as its bit pattern and width, from which the
      double of the original is determined. */
  datatype MetaValue = Nothing | IntV(n: int) | FloatV(bits: nat, width: nat) | StrV(s: Bytes) | BoolV(b: bool)

  /** Two's complement of `8 * k` bits. */
  function Signed(raw: nat, k: nat): int {
    if 2 * raw >= Pow256(k) then raw - Pow256(k) else raw
  }

  /** The value of a fixed-size field; a 64-bit unsigned one is reinterpreted as signed. */
  function PodValue(tag: nat, raw: nat): MetaValue {
    if tag == BOOL then BoolV(raw != 0)
    else if tag == FLOAT32 || tag == FLOAT64 then FloatV(raw, PodSize(tag))
    else if tag == 1 || tag == 3 || tag == 5 || tag == 10 || tag == 11 then IntV(Signed(raw, PodSize(tag)))
    else IntV(raw)
  }

  // ---------------------------------------------------------------- readers

  /** A value and the offset just past it. */
  datatype Read<+T> = Read(value: T, end: nat)

  const MAX_STRING: nat := 0x4000_0000
  const MAX_ARRAY: nat := 0x1_0000_0000
  const MAX_COUNT: nat := 0x10_0000
  const MAX_ELEMENTS: nat := 0x4_0000_0000_0000

  function ReadNum(b: Bytes, off: nat, k: nat): (r: Result<Read<nat>>)
    ensures r.Ok? ==> r.value.end == off + k <= |b|
  {
    if off + k > |b| then Err("truncated file") else Ok(Read(FromLE(b[off..off + k]), off + k))
  }

  function ReadStr(b: Bytes, off: nat): (r: Result<Read<Bytes>>)
    ensures r.Ok? ==> off + 8 <= r.value.end <= |b|
  {
    match ReadNum(b, off, 8)
    case Err(e) => Err(e)
    case Ok(len) =>
      if len.value > MAX_STRING then Err("implausible string length")
      else if len.end + len.value > |b| then Err("truncated file")
      else Ok(Read(b[len.end..len.end + len.value], len.end + len.value))
  }

  /** One value; an array is consumed and dropped. */
  function ReadValue(b: Bytes, off: nat, tag: nat): (r: Result<Read<MetaValue>>)
    ensures r.Ok? ==> off < r.value.end <= |b|
    decreases |b| - off, 0
  {
    if PodSize(tag) > 0 then
      match ReadNum(b, off, PodSize(tag))
      case Err(e) => Err(e)
      case Ok(raw) => Ok(Read(PodValue(tag, raw.value), raw.end))
    else if tag == STRING then
      match ReadStr(b, off)
      case Err(e) => Err(e)
      case Ok(s) => Ok(Read(StrV(s.value), s.end))
    else if tag == ARRAY then
      match ReadArrayHead(b, off)
      case Err(e) => Err(e)
      case Ok(head) =>
        match ReadMany(b, head.end, head.value.elem, head.value.count)
        case Err(e) => Err(e)
        case Ok(items) => Ok(Read(Nothing, items.end))
    else Err("unknown metadata type")
  }

  datatype ArrayHead = ArrayHead(elem: nat, count: nat)

  function ReadArrayHead(b: Bytes, off: nat): (r: Result<Read<ArrayHead>>)
    ensures r.Ok? ==> r.value.end == off + 12 <= |b|
  {
    match ReadNum(b, off, 4)
    case Err(e) => Err(e)
    case Ok(elem) =>
      match ReadNum(b, elem.end, 8)
      case Err(e) => Err(e)
      case Ok(n) =>
        if n.value > MAX_ARRAY then Err("implausible array length") else Ok(Read(ArrayHead(elem.value, n.value), n.end))
  }

  /** `n` values of one type in a row. */
  function ReadMany(b: Bytes, off: nat, tag: nat, n: nat): (r: Result<Read<seq<MetaValue>>>)
    requires off <= |b|
    ensures r.Ok? ==> off <= r.value.end <= |b| && |r.value.value| == n
    decreases |b| - off, n
  {
    if n == 0 then Ok(Read([], off))
    else
      match ReadValue(b, off, tag)
      case Err(e) => Err(e)
      case Ok(v) =>
        match ReadMany(b, v.end, tag, n - 1)
        case Err(e) => Err(e)
        case Ok(rest) => Ok(Read([v.value] + rest.value, rest.end))
  }

  // ---------------------------------------------------------------- metadata

  /** The four tables of the parser. Array entries hold values of one kind each. */
  datatype Tables = Tables(
    meta: map<Bytes, MetaValue>, strings: map<Bytes, seq<MetaValue>>, floats: map<Bytes, seq<MetaValue>>,
    ints: map<Bytes, seq<MetaValue>>)

  const NO_TABLES := Tables(map[], map[], map[], map[])

  /** A repeated key extends its array. */
  function Extended(t: map<Bytes, seq<MetaValue>>, key: Bytes, items: seq<MetaValue>): map<Bytes, seq<MetaValue>> {
    t[key := (if key in t then t[key] else []) + items]
  }

  /** Files an array of element type `elem` under `key`; nested and boolean arrays are not kept. */
  function FileArray(t: Tables, key: Bytes, elem: nat, items: seq<MetaValue>): Tables {
    if elem == STRING then t.(strings := Extended(t.strings, key, items))
    else if elem == FLOAT32 || elem == FLOAT64 then t.(floats := Extended(t.floats, key, items))
    else if elem == ARRAY || elem == BOOL then t
    else t.(ints := Extended(t.ints, key, items))
  }

  function ReadEntry(b: Bytes, off: nat, t: Tables): (r: Result<Read<Tables>>)
    requires off <= |b|
    ensures r.Ok? ==> off < r.value.end <= |b|
  {
    match ReadStr(b, off)
    case Err(e) => Err(e)
    case Ok(key) =>
      match ReadNum(b, key.end, 4)
      case Err(e) => Err(e)
      case Ok(tag) =>
        if tag.value != ARRAY then
          match ReadValue(b, tag.end, tag.value)
          case Err(e) => Err(e)
          case Ok(v) => Ok(Read(t.(meta := t.meta[key.value := v.value]), v.end))
        else
          match ReadArrayHead(b, tag.end)
          case Err(e) => Err(e)
          case Ok(head) =>
            match ReadMany(b, head.end, head.value.elem, head.value.count)
            case Err(e) => Err(e)
            case Ok(items) => Ok(Read(FileArray(t, key.value, head.value.elem, items.value), items.end))
  }

  function ReadEntries(b: Bytes, off: nat, n: nat, t: Tables): (r: Result<Read<Tables>>)
    requires off <= |b|
    ensures r.Ok? ==> off <= r.value.end <= |b|
    decreases n
  {
    if n == 0 then Ok(Read(t, off))
    else
      match ReadEntry(b, off, t)
      case Err(e) => Err(e)
      case Ok(entry) => ReadEntries(b, entry.end, n - 1, entry.value)
  }

  predicate PowerOfTwo(n: nat) {
    n > 0 && (n == 1 || (n % 2 == 0 && PowerOfTwo(n / 2)))
  }

  const ALIGNMENT_KEY: Bytes := [
    0x67, 0x65, 0x6E, 0x65, 0x72, 0x61, 0x6C, 0x2E, 0x61, 0x6C, 0x69, 0x67, 0x6E, 0x6D, 0x65, 0x6E, 0x74]

  function Alignment(meta: map<Bytes, MetaValue>): (r: Result<nat>)
    ensures r.Ok? ==> 0 < r.value <= 0x10_0000
  {
    if ALIGNMENT_KEY !in meta then Ok(32)
    else
      match meta[ALIGNMENT_KEY]
      case IntV(n) => if 0 < n <= 0x10_0000 && PowerOfTwo(n) then Ok(n) else Err("alignment must be a power of two")
      case _ => Err("alignment must be a power of two")
  }

  // ---------------------------------------------------------------- tensors

  datatype Traits = Traits(elems: nat, bytes: nat)

  /** Elements and bytes per block; no bytes for an unknown type. */
  function TypeTraits(t: nat): (r: Traits)
    ensures r.elems > 0
  {
    match t
    case 0 => Traits(1, 4)
    case 1 => Traits(1, 2)
    case 2 => Traits(32, 18)
    case 3 => Traits(32, 20)
    case 6 => Traits(32, 22)
    case 7 => Traits(32, 24)
    case 8 => Traits(32, 34)
    case 9 => Traits(32, 36)
    case 10 => Traits(256, 84)
    case 11 => Traits(256, 110)
    case 12 => Traits(256, 144)
    case 13 => Traits(256, 176)
    case 14 => Traits(256, 210)
    case 15 => Traits(256, 292)
    case _ => Traits(1, 0)
  }

  datatype Tensor = Tensor(name: Bytes, dims: seq<nat>, typ: nat, offset: nat)

  function Product(dims: seq<nat>): nat {
    if dims == [] then 1 else Product(dims[..|dims| - 1]) * dims[|dims| - 1]
  }

  function TensorBytes(t: Tensor): nat {
    Product(t.dims) / TypeTraits(t.typ).elems * TypeTraits(t.typ).bytes
  }

  /** Dimensions are read one by one; the running product is capped. */
  function ReadDims(b: Bytes, off: nat, n: nat, dims: seq<nat>): (r: Result<Read<seq<nat>>>)
    requires off <= |b|
    ensures r.Ok? ==> r.value.end == off + 8 * n <= |b| && |r.value.value| == |dims| + n && dims <= r.value.value
    decreases n
  {
    if n == 0 then Ok(Read(dims, off))
    else
      match ReadNum(b, off, 8)
      case Err(e) => Err(e)
      case Ok(dim) =>
        if dim.value == 0 then Err("zero dimension")
        else if Product(dims) * dim.value > MAX_ELEMENTS then Err("element count overflows")
        else ReadDims(b, dim.end, n - 1, dims + [dim.value])
  }

  function ReadTensor(b: Bytes, off: nat, align: nat, seen: set<Bytes>): (r: Result<Read<Tensor>>)
    requires off <= |b| && align > 0
    ensures r.Ok? ==> off < r.value.end <= |b|
  {
    match ReadStr(b, off)
    case Err(e) => Err(e)
    case Ok(name) =>
      if name.value in seen then Err("duplicate tensor name")
      else
        match ReadNum(b, name.end, 4)
        case Err(e) => Err(e)
        case Ok(rank) =>
          if rank.value == 0 || rank.value > 4 then Err("bad tensor rank")
          else
            match ReadDims(b, rank.end, rank.value, [])
            case Err(e) => Err(e)
            case Ok(dims) =>
              match ReadNum(b, dims.end, 4)
              case Err(e) => Err(e)
              case Ok(typ) =>
                match ReadNum(b, typ.end, 8)
                case Err(e) => Err(e)
                case Ok(offset) =>
                  var t := Tensor(name.value, dims.value, typ.value, offset.value);
                  var traits := TypeTraits(t.typ);
                  if traits.bytes == 0 then Err("unsupported tensor type")
                  else if Product(t.dims) % traits.elems != 0 then Err("partial block")
                  else if TensorBytes(t) > MAX_ELEMENTS then Err("byte size overflows")
                  else if t.offset % align != 0 then Err("misaligned offset")
                  else Ok(Read(t, offset.end))
  }

  function Names(ts: seq<Tensor>): set<Bytes> {
    set i | 0 <= i < |ts| :: ts[i].name
  }

  function ReadTensors(b: Bytes, off: nat, n: nat, align: nat, ts: seq<Tensor>): (r: Result<Read<seq<Tensor>>>)
    requires off <= |b| && align > 0
    ensures r.Ok? ==> off <= r.value.end <= |b| && ts <= r.value.value
    decreases n
  {
    if n == 0 then Ok(Read(ts, off))
    else
      match ReadTensor(b, off, align, Names(ts))
      case Err(e) => Err(e)
      case Ok(t) => ReadTensors(b, t.end, n - 1, align, ts + [t.value])
  }

  // ---------------------------------------------------------------- the whole file

  datatype Header = Header(version: nat, tensorCount: nat, metaCount: nat)

  const MAGIC: Bytes := [0x47, 0x47, 0x55, 0x46]

  function ReadHeader(b: Bytes): (r: Result<Read<Header>>)
    ensures r.Ok? ==> r.value.end == 24 <= |b|
  {
    if |b| < 4 then Err("truncated file")
    else if b[..4] != MAGIC then Err("bad magic")
    else
      match ReadNum(b, 4, 4)
      case Err(e) => Err(e)
      case Ok(version) =>
        if version.value < 2 || version.value > 3 then Err("unsupported version")
        else
          match ReadNum(b, 8, 8)
          case Err(e) => Err(e)
          case Ok(tensors) =>
            match ReadNum(b, 16, 8)
            case Err(e) => Err(e)
            case Ok(metas) =>
              if tensors.value > MAX_COUNT || metas.value > MAX_COUNT then Err("implausible header counts")
              else Ok(Read(Header(version.value, tensors.value, metas.value), 24))
  }

  /** Everything in front of the tensor data. */
  datatype File = File(version: nat, tables: Tables, tensors: seq<Tensor>, align: nat, dataOffset: nat)

  function AlignUp(off: nat, align: nat): nat
    requires align > 0
  {
    (off + align - 1) / align * align
  }

  function ReadFile(b: Bytes): (r: Result<Read<File>>)
    ensures r.Ok? ==> r.value.end <= |b|
  {
    match ReadHeader(b)
    case Err(e) => Err(e)
    case Ok(head) =>
      match ReadEntries(b, 24, head.value.metaCount, NO_TABLES)
      case Err(e) => Err(e)
      case Ok(tables) =>
        match Alignment(tables.value.meta)
        case Err(e) => Err(e)
        case Ok(align) =>
          match ReadTensors(b, tables.end, head.value.tensorCount, align, [])
          case Err(e) => Err(e)
          case Ok(ts) =>
            var f := File(head.value.version, tables.value, ts.value, align, AlignUp(ts.end, align));
            Ok(Read(f, ts.end))
  }

  /** A tensor lies inside a blob of `size` bytes. */
  predicate Inside(t: Tensor, size: nat) {
    t.offset + TensorBytes(t) <= size
  }

  /** Two tensors share no byte. */
  predicate Disjoint(s: Tensor, t: Tensor) {
    s.offset + TensorBytes(s) <= t.offset || t.offset + TensorBytes(t) <= s.offset
  }

  predicate PairwiseDisjoint(ts: seq<Tensor>) {
    forall i, j | 0 <= i < j < |ts| :: Disjoint(ts[i], ts[j])
  }

  /** What the parser returns: the header parsed, every tensor inside the blob, no two overlapping. */
  function Parsed(b: Bytes): Result<File> {
    match ReadFile(b)
    case Err(e) => Err(e)
    case Ok(f) =>
      if f.value.dataOffset > |b| then Err("data section starts past end")
      else if exists i | 0 <= i < |f.value.tensors| :: !Inside(f.value.tensors[i], |b| - f.value.dataOffset) then
        Err("tensor runs past end of file")
      else if !PairwiseDisjoint(f.value.tensors) then Err("tensors overlap")
      else Ok(f.value)
  }
}
