/** Cutting a file short: which prefixes of an accepted image are accepted. */
module GgufTruncation {
  import opened Common
  import opened Numbers
  import opened GgufFormat

  /** A reader that succeeds on `b` and ends at `end` sees the same thing in every prefix that reaches `end`
      and fails in every shorter one. */
  ghost predicate Cuts<T>(whole: Result<Read<T>>, cut: Result<Read<T>>, m: nat) {
    whole.Ok? ==> (if whole.value.end <= m then cut == whole else cut.Err?)
  }

  lemma CutNum(b: Bytes, m: nat, off: nat, k: nat)
    requires m <= |b|
    ensures Cuts(ReadNum(b, off, k), ReadNum(b[..m], off, k), m)
  {
    if off + k <= m {
      assert b[..m][off..off + k] == b[off..off + k];
    }
  }

  lemma CutStr(b: Bytes, m: nat, off: nat)
    requires m <= |b|
    ensures Cuts(ReadStr(b, off), ReadStr(b[..m], off), m)
  {
    hide FromLE;
    CutNum(b, m, off, 8);
    var whole := ReadStr(b, off);
    if whole.Ok? && whole.value.end <= m {
      assert b[..m][off + 8..whole.value.end] == b[off + 8..whole.value.end];
    }
  }

  lemma CutArrayHead(b: Bytes, m: nat, off: nat)
    requires m <= |b|
    ensures Cuts(ReadArrayHead(b, off), ReadArrayHead(b[..m], off), m)
  {
    hide ReadNum;
    CutNum(b, m, off, 4);
    CutNum(b, m, off + 4, 8);
  }

  lemma {:induction false} CutValue(b: Bytes, m: nat, off: nat, tag: nat)
    requires m <= |b|
    ensures Cuts(ReadValue(b, off, tag), ReadValue(b[..m], off, tag), m)
    decreases |b| - off, 0
  {
    hide ReadNum, ReadStr, ReadArrayHead, PodValue;
    if PodSize(tag) > 0 {
      CutNum(b, m, off, PodSize(tag));
    } else if tag == STRING {
      CutStr(b, m, off);
    } else if tag == ARRAY {
      CutArrayHead(b, m, off);
      var head := ReadArrayHead(b, off);
      if head.Ok? {
        CutMany(b, m, head.value.end, head.value.value.elem, head.value.value.count);
      }
    }
  }

  lemma {:induction false} CutMany(b: Bytes, m: nat, off: nat, tag: nat, n: nat)
    requires m <= |b| && off <= |b|
    ensures off <= m ==> Cuts(ReadMany(b, off, tag, n), ReadMany(b[..m], off, tag, n), m)
    decreases |b| - off, n
  {
    hide ReadValue;
    if n > 0 {
      CutValue(b, m, off, tag);
      var v := ReadValue(b, off, tag);
      if v.Ok? {
        CutMany(b, m, v.value.end, tag, n - 1);
      }
    }
  }

  lemma CutEntry(b: Bytes, m: nat, off: nat, t: Tables)
    requires m <= |b| && off <= m
    ensures Cuts(ReadEntry(b, off, t), ReadEntry(b[..m], off, t), m)
  {
    hide ReadNum, ReadStr, ReadArrayHead, ReadValue, ReadMany, FileArray;
    CutStr(b, m, off);
    var key := ReadStr(b, off);
    if key.Ok? {
      CutNum(b, m, key.value.end, 4);
      var tag := ReadNum(b, key.value.end, 4);
      if tag.Ok? {
        CutValue(b, m, tag.value.end, tag.value.value);
        CutArrayHead(b, m, tag.value.end);
        var head := ReadArrayHead(b, tag.value.end);
        if head.Ok? {
          CutMany(b, m, head.value.end, head.value.value.elem, head.value.value.count);
        }
      }
    }
  }

  lemma {:induction false} CutEntries(b: Bytes, m: nat, off: nat, n: nat, t: Tables)
    requires m <= |b| && off <= m
    ensures Cuts(ReadEntries(b, off, n, t), ReadEntries(b[..m], off, n, t), m)
    decreases n
  {
    hide ReadEntry;
    if n > 0 {
      CutEntry(b, m, off, t);
      var entry := ReadEntry(b, off, t);
      if entry.Ok? && entry.value.end <= m {
        CutEntries(b, m, entry.value.end, n - 1, entry.value.value);
      }
    }
  }

  lemma {:induction false} CutDims(b: Bytes, m: nat, off: nat, n: nat, dims: seq<nat>)
    requires m <= |b| && off <= m
    ensures Cuts(ReadDims(b, off, n, dims), ReadDims(b[..m], off, n, dims), m)
    decreases n
  {
    hide ReadNum, Product;
    if n > 0 {
      CutNum(b, m, off, 8);
      var dim := ReadNum(b, off, 8);
      if dim.Ok? && dim.value.end <= m {
        CutDims(b, m, dim.value.end, n - 1, dims + [dim.value.value]);
      }
    }
  }

  lemma CutTensor(b: Bytes, m: nat, off: nat, align: nat, seen: set<Bytes>)
    requires m <= |b| && off <= m && align > 0
    ensures Cuts(ReadTensor(b, off, align, seen), ReadTensor(b[..m], off, align, seen), m)
  {
    hide ReadNum, ReadStr, ReadDims, Product, TypeTraits, TensorBytes;
    CutStr(b, m, off);
    var name := ReadStr(b, off);
    if name.Ok? && name.value.end <= m {
      CutNum(b, m, name.value.end, 4);
      var rank := ReadNum(b, name.value.end, 4);
      if rank.Ok? && rank.value.end <= m {
        CutDims(b, m, rank.value.end, rank.value.value, []);
        var dims := ReadDims(b, rank.value.end, rank.value.value, []);
        if dims.Ok? && dims.value.end <= m {
          CutNum(b, m, dims.value.end, 4);
          CutNum(b, m, dims.value.end + 4, 8);
        }
      }
    }
  }

  lemma {:induction false} CutTensors(b: Bytes, m: nat, off: nat, n: nat, align: nat, ts: seq<Tensor>)
    requires m <= |b| && off <= m && align > 0
    ensures Cuts(ReadTensors(b, off, n, align, ts), ReadTensors(b[..m], off, n, align, ts), m)
    decreases n
  {
    hide ReadTensor, Names;
    if n > 0 {
      CutTensor(b, m, off, align, Names(ts));
      var t := ReadTensor(b, off, align, Names(ts));
      if t.Ok? && t.value.end <= m {
        CutTensors(b, m, t.value.end, n - 1, align, ts + [t.value.value]);
      }
    }
  }

  lemma CutHeader(b: Bytes, m: nat)
    requires m <= |b|
    ensures Cuts(ReadHeader(b), ReadHeader(b[..m]), m)
  {
    hide ReadNum;
    if m >= 4 { assert b[..m][..4] == b[..4]; }
    CutNum(b, m, 4, 4);
    CutNum(b, m, 8, 8);
    CutNum(b, m, 16, 8);
  }

  lemma CutFile(b: Bytes, m: nat)
    requires m <= |b|
    ensures Cuts(ReadFile(b), ReadFile(b[..m]), m)
  {
    hide ReadHeader, ReadEntries, ReadTensors, Alignment, AlignUp;
    CutHeader(b, m);
    var head := ReadHeader(b);
    if head.Ok? && 24 <= m {
      CutEntries(b, m, 24, head.value.value.metaCount, NO_TABLES);
      var tables := ReadEntries(b, 24, head.value.value.metaCount, NO_TABLES);
      if tables.Ok? && tables.value.end <= m {
        var align := Alignment(tables.value.value.meta);
        if align.Ok? {
          CutTensors(b, m, tables.value.end, head.value.value.tensorCount, align.value, []);
        }
      }
    }
  }

  // ---------------------------------------------------------------- the shortest accepted prefix

  /** Where the last tensor ends, counted from the start of the data section. */
  function LastEnd(ts: seq<Tensor>): (end: nat)
    ensures forall i | 0 <= i < |ts| :: ts[i].offset + TensorBytes(ts[i]) <= end
    ensures end == 0 || exists i :: 0 <= i < |ts| && ts[i].offset + TensorBytes(ts[i]) == end
  {
    if ts == [] then 0
    else
      var n := |ts| - 1;
      var before, here := LastEnd(ts[..n]), ts[n].offset + TensorBytes(ts[n]);
      assert forall i | 0 <= i < n :: ts[..n][i] == ts[i];
      if before < here then here else before
  }

  /** The larger of the data offset and the end of the last tensor. */
  function ImageEnd(f: File): nat {
    f.dataOffset + LastEnd(f.tensors)
  }

  lemma HeaderBeforeData(b: Bytes)
    ensures ReadFile(b).Ok? ==> ReadFile(b).value.end <= ReadFile(b).value.value.dataOffset
  {
    hide ReadHeader, ReadEntries, ReadTensors, Alignment;
    var f := ReadFile(b);
    if f.Ok? {
      AlignsUp(f.value.end, f.value.value.align);
    }
  }

  lemma AlignsUp(off: nat, align: nat)
    requires align > 0
    ensures off <= AlignUp(off, align) < off + align && AlignUp(off, align) % align == 0
  {
    var q := (off + align - 1) / align;
    assert off + align - 1 == q * align + (off + align - 1) % align;
    MultipleMod(q, align);
  }

  /** Exact truncation: of an accepted image, every prefix shorter than its end is rejected and every prefix
      that reaches it is accepted with the same result. */
  lemma TruncationExact(b: Bytes, m: nat)
    requires m <= |b| && Parsed(b).Ok?
    ensures ImageEnd(Parsed(b).value) <= |b|
    ensures m < ImageEnd(Parsed(b).value) ==> Parsed(b[..m]).Err?
    ensures m >= ImageEnd(Parsed(b).value) ==> Parsed(b[..m]) == Parsed(b)
  {
    hide ReadFile, PairwiseDisjoint, TensorBytes;
    CutFile(b, m);
    HeaderBeforeData(b);
    var f := Parsed(b).value;
    var end := LastEnd(f.tensors);
    if end > 0 {
      var last :| 0 <= last < |f.tensors| && f.tensors[last].offset + TensorBytes(f.tensors[last]) == end;
      assert Inside(f.tensors[last], |b| - f.dataOffset);
      assert f.dataOffset <= m < f.dataOffset + end ==> !Inside(f.tensors[last], m - f.dataOffset);
    }
  }
}
