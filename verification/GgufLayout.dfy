/** What an accepted file guarantees about its tensors. */
module GgufLayout {
  import opened Common
  import opened Numbers
  import opened GgufFormat
  import opened GgufTruncation

  /** What the tensor loop checks of one tensor. */
  predicate TensorOk(t: Tensor, align: nat)
    requires align > 0
  {
    && 0 < |t.dims| <= 4
    && (forall i | 0 <= i < |t.dims| :: 0 < t.dims[i])
    && Product(t.dims) <= MAX_ELEMENTS
    && TypeTraits(t.typ).bytes > 0
    && Product(t.dims) % TypeTraits(t.typ).elems == 0
    && TensorBytes(t) <= MAX_ELEMENTS
    && t.offset % align == 0
    && t.offset < TWO64
  }

  predicate DimsOk(dims: seq<nat>) {
    Product(dims) <= MAX_ELEMENTS && forall i | 0 <= i < |dims| :: 0 < dims[i]
  }

  lemma {:induction false} ReadDimsOk(b: Bytes, off: nat, n: nat, dims: seq<nat>)
    requires off <= |b| && DimsOk(dims)
    ensures ReadDims(b, off, n, dims).Ok? ==> DimsOk(ReadDims(b, off, n, dims).value.value)
    decreases n
  {
    hide ReadNum;
    if n > 0 && ReadNum(b, off, 8).Ok? {
      var dim := ReadNum(b, off, 8).value;
      if dim.value > 0 && Product(dims) * dim.value <= MAX_ELEMENTS {
        assert (dims + [dim.value])[..|dims|] == dims;
        ReadDimsOk(b, dim.end, n - 1, dims + [dim.value]);
      }
    }
  }

  lemma ReadNumSmall(b: Bytes, off: nat, k: nat)
    ensures ReadNum(b, off, k).Ok? ==> ReadNum(b, off, k).value.value < Pow256(k)
  {
    if off + k <= |b| { FromLEBound(b[off..off + k]); }
  }

  lemma EightBytes()
    ensures Pow256(8) == TWO64
  {
    assert Pow256(1) == 256 && Pow256(2) == 0x1_0000 && Pow256(3) == 0x100_0000 && Pow256(4) == 0x1_0000_0000;
    assert Pow256(5) == 0x100_0000_0000 && Pow256(6) == 0x1_0000_0000_0000 && Pow256(7) == 0x100_0000_0000_0000;
  }

  lemma ReadTensorOk(b: Bytes, off: nat, align: nat, seen: set<Bytes>)
    requires off <= |b| && align > 0
    ensures var r := ReadTensor(b, off, align, seen);
            r.Ok? ==> TensorOk(r.value.value, align) && r.value.value.name !in seen
  {
    hide ReadStr, ReadDims, ReadNum, TypeTraits;
    var r := ReadTensor(b, off, align, seen);
    if r.Ok? {
      var rank := ReadNum(b, ReadStr(b, off).value.end, 4).value;
      ReadDimsOk(b, rank.end, rank.value, []);
      var dims := ReadDims(b, rank.end, rank.value, []).value;
      ReadNumSmall(b, dims.end + 4, 8);
      EightBytes();
    }
  }

  /** Every tensor passed its checks and no name repeats. */
  ghost predicate TensorsOk(ts: seq<Tensor>, align: nat)
    requires align > 0
  {
    && (forall i | 0 <= i < |ts| :: TensorOk(ts[i], align))
    && forall i, j | 0 <= i < j < |ts| :: ts[i].name != ts[j].name
  }

  lemma {:induction false} ReadTensorsOk(b: Bytes, off: nat, n: nat, align: nat, ts: seq<Tensor>)
    requires off <= |b| && align > 0 && TensorsOk(ts, align)
    ensures var r := ReadTensors(b, off, n, align, ts); r.Ok? ==> TensorsOk(r.value.value, align)
    decreases n
  {
    hide ReadTensor, TensorOk;
    if n > 0 {
      ReadTensorOk(b, off, align, Names(ts));
      var t := ReadTensor(b, off, align, Names(ts));
      if t.Ok? {
        forall i | 0 <= i < |ts|
          ensures ts[i].name != t.value.value.name
        {
          assert ts[i].name in Names(ts);
        }
        ReadTensorsOk(b, t.value.end, n - 1, align, ts + [t.value.value]);
      }
    }
  }

  lemma ProductPositive(dims: seq<nat>)
    requires forall i | 0 <= i < |dims| :: 0 < dims[i]
    ensures Product(dims) > 0
  {
    if dims != [] { ProductPositive(dims[..|dims| - 1]); }
  }

  lemma {:induction false} PrefixProduct(dims: seq<nat>, k: nat)
    requires k <= |dims| && forall i | 0 <= i < |dims| :: 0 < dims[i]
    ensures 0 < Product(dims[..k]) <= Product(dims)
    decreases |dims|
  {
    ProductPositive(dims[..k]);
    if k == |dims| {
      assert dims[..k] == dims;
    } else {
      var n := |dims| - 1;
      PrefixProduct(dims[..n], k);
      assert dims[..n][..k] == dims[..k];
      ProductPositive(dims[..n]);
      MulLe(1, dims[n], Product(dims[..n]));
    }
  }

  /** No accepted tensor is empty. */
  lemma TensorNonEmpty(t: Tensor, align: nat)
    requires align > 0 && TensorOk(t, align)
    ensures TensorBytes(t) > 0
  {
    ProductPositive(t.dims);
    BlockCount(Product(t.dims), TypeTraits(t.typ).elems);
    var blocks := Product(t.dims) / TypeTraits(t.typ).elems;
    MulLe(1, blocks, TypeTraits(t.typ).bytes);
  }

  lemma BlockCount(n: nat, block: nat)
    requires n > 0 && block > 0 && n % block == 0
    ensures n / block >= 1
  {
    assert n == n / block * block;
  }

  lemma FileTensorsOk(b: Bytes)
    ensures var f := ReadFile(b);
            f.Ok? ==>
              && f.value.value.align > 0 && TensorsOk(f.value.value.tensors, f.value.value.align)
              && f.value.value.dataOffset % f.value.value.align == 0
  {
    hide ReadHeader, ReadEntries, ReadTensors, Alignment, TensorsOk;
    var f := ReadFile(b);
    if f.Ok? {
      var tables := ReadEntries(b, 24, ReadHeader(b).value.value.metaCount, NO_TABLES).value;
      var align := Alignment(tables.value.meta).value;
      NoTensorsOk(align);
      ReadTensorsOk(b, tables.end, ReadHeader(b).value.value.tensorCount, align, []);
      AlignsUp(f.value.end, align);
    }
  }

  lemma NoTensorsOk(align: nat)
    requires align > 0
    ensures TensorsOk([], align)
  {
  }

  /** In an accepted file every tensor is non-empty, inside the blob and aligned within the file, and no two
      tensors share a byte. */
  lemma AcceptedLayout(b: Bytes)
    requires Parsed(b).Ok?
    ensures var f := Parsed(b).value;
            && f.align > 0 && f.dataOffset <= |b|
            && PairwiseDisjoint(f.tensors)
            && forall i | 0 <= i < |f.tensors| ::
                 && TensorBytes(f.tensors[i]) > 0
                 && f.dataOffset + f.tensors[i].offset + TensorBytes(f.tensors[i]) <= |b|
                 && (f.dataOffset + f.tensors[i].offset) % f.align == 0
  {
    hide ReadFile, PairwiseDisjoint, TensorOk, TensorBytes;
    FileTensorsOk(b);
    var f := Parsed(b).value;
    forall i | 0 <= i < |f.tensors|
      ensures TensorBytes(f.tensors[i]) > 0
      ensures f.dataOffset + f.tensors[i].offset + TensorBytes(f.tensors[i]) <= |b|
      ensures (f.dataOffset + f.tensors[i].offset) % f.align == 0
    {
      assert Inside(f.tensors[i], |b| - f.dataOffset);
      TensorNonEmpty(f.tensors[i], f.align);
      OffsetAligned(f.tensors[i], f.align);
      SumAligned(f.dataOffset, f.tensors[i].offset, f.align);
    }
  }

  lemma OffsetAligned(t: Tensor, align: nat)
    requires align > 0 && TensorOk(t, align)
    ensures t.offset % align == 0
  {
  }

  lemma SumAligned(a: nat, b: nat, d: nat)
    requires d > 0 && a % d == 0 && b % d == 0
    ensures (a + b) % d == 0
  {
    var p, q := a / d, b / d;
    assert a == p * d && b == q * d;
    assert a + b == (p + q) * d;
    MultipleMod(p + q, d);
  }

  // ---------------------------------------------------------------- overlap by sorting

  predicate SortedByOffset(ts: seq<Tensor>) {
    forall i, j | 0 <= i < j < |ts| :: ts[i].offset <= ts[j].offset
  }

  /** The check of the original: each tensor ends before the next one in offset order starts. */
  predicate AdjacentDisjoint(ts: seq<Tensor>) {
    forall i | 0 < i < |ts| :: ts[i - 1].offset + TensorBytes(ts[i - 1]) <= ts[i].offset
  }

  predicate NonEmpty(ts: seq<Tensor>) {
    forall i | 0 <= i < |ts| :: TensorBytes(ts[i]) > 0
  }

  /** In offset order, ends are reached before any later start. */
  lemma {:induction false} AdjacentChains(ts: seq<Tensor>, i: nat, j: nat)
    requires AdjacentDisjoint(ts) && i < j < |ts|
    ensures ts[i].offset + TensorBytes(ts[i]) <= ts[j].offset
    decreases j
  {
    hide TensorBytes;
    if i + 1 < j {
      AdjacentChains(ts, i, j - 1);
    }
    assert ts[j - 1].offset + TensorBytes(ts[j - 1]) <= ts[j].offset;
  }

  lemma SortedAdjacentIff(ts: seq<Tensor>)
    requires SortedByOffset(ts) && NonEmpty(ts)
    ensures AdjacentDisjoint(ts) <==> PairwiseDisjoint(ts)
  {
    hide TensorBytes;
    if AdjacentDisjoint(ts) {
      forall i, j | 0 <= i < j < |ts|
        ensures Disjoint(ts[i], ts[j])
      {
        AdjacentChains(ts, i, j);
      }
    }
    if PairwiseDisjoint(ts) {
      forall i | 0 < i < |ts|
        ensures ts[i - 1].offset + TensorBytes(ts[i - 1]) <= ts[i].offset
      {
        assert Disjoint(ts[i - 1], ts[i]);
        assert ts[i - 1].offset <= ts[i].offset && TensorBytes(ts[i]) > 0 && TensorBytes(ts[i - 1]) > 0;
      }
    }
  }

  ghost predicate DistinctElements(ts: seq<Tensor>) {
    forall i, j | 0 <= i < j < |ts| :: ts[i] != ts[j]
  }

  /** A reordering of distinct elements has distinct elements. */
  lemma {:induction false} DistinctMultiset(ts: seq<Tensor>)
    ensures DistinctElements(ts) <==> forall t | t in multiset(ts) :: multiset(ts)[t] == 1
  {
    if ts != [] {
      var n := |ts| - 1;
      var front, last := ts[..n], ts[n];
      assert ts == front + [last];
      DistinctMultiset(front);
      if DistinctElements(ts) {
        assert last !in multiset(front);
      } else if DistinctElements(front) {
        var i, j :| 0 <= i < j < |ts| && ts[i] == ts[j];
        assert j == n && front[i] == last && last in multiset(front);
        assert multiset(ts)[last] >= 2;
      } else {
        var t :| t in multiset(front) && multiset(front)[t] != 1;
        assert multiset(ts)[t] >= multiset(front)[t];
      }
    }
  }

  lemma DisjointReordered(ts: seq<Tensor>, sorted: seq<Tensor>)
    requires multiset(ts) == multiset(sorted) && DistinctElements(ts)
    requires PairwiseDisjoint(ts)
    ensures PairwiseDisjoint(sorted)
  {
    hide TensorBytes;
    DistinctMultiset(ts);
    DistinctMultiset(sorted);
    forall i, j | 0 <= i < j < |sorted|
      ensures Disjoint(sorted[i], sorted[j])
    {
      assert sorted[i] in multiset(sorted) && sorted[j] in multiset(sorted);
      assert sorted[i] in multiset(ts) && sorted[j] in multiset(ts);
      var p :| 0 <= p < |ts| && ts[p] == sorted[i];
      var q :| 0 <= q < |ts| && ts[q] == sorted[j];
    }
  }

  /** Whatever order the sort leaves equal offsets in, comparing neighbours decides pairwise overlap. */
  lemma AdjacentDecides(ts: seq<Tensor>, sorted: seq<Tensor>)
    requires multiset(ts) == multiset(sorted) && SortedByOffset(sorted)
    requires DistinctElements(ts) && NonEmpty(ts)
    ensures AdjacentDisjoint(sorted) <==> PairwiseDisjoint(ts)
  {
    hide TensorBytes, AdjacentDisjoint, PairwiseDisjoint;
    forall i | 0 <= i < |sorted|
      ensures TensorBytes(sorted[i]) > 0
    {
      assert sorted[i] in multiset(sorted);
      assert sorted[i] in multiset(ts);
      var p :| 0 <= p < |ts| && ts[p] == sorted[i];
    }
    SortedAdjacentIff(sorted);
    DistinctMultiset(ts);
    DistinctMultiset(sorted);
    if PairwiseDisjoint(ts) { DisjointReordered(ts, sorted); }
    if PairwiseDisjoint(sorted) { DisjointReordered(sorted, ts); }
  }
}
