/** What the fields of a model file mean: numbers written in two's complement, float patterns and flags come back as
    what they denote, and the alignment is the number stored for it. */
module GgufValues {
  import opened Common
  import opened Numbers
  import opened GgufFormat
  import opened GgufLayout
  import opened GgufRoundTrip

  // ---------------------------------------------------------------- byte order

  /** Byte `i` carries the digit of weight 256^i: the least significant byte comes first. */
  lemma {:induction false} ByteAt(n: nat, k: nat, i: nat)
    requires i < k
    ensures LE(n, k)[i] == n / Pow256(i) % 256
    decreases k
  {
    if i > 0 {
      ByteAt(n / 256, k - 1, i - 1);
      DivTwice(n, 256, Pow256(i - 1));
    }
  }

  lemma DivTwice(n: nat, a: nat, b: nat)
    requires a > 0 && b > 0
    ensures a * b > 0 && n / a / b == n / (a * b)
  {
    var q, r := n / a, n % a;
    var p, s := q / b, q % b;
    assert n == q * a + r && q == p * b + s;
    assert n == p * (a * b) + (s * a + r) by { assert q * a == p * b * a + s * a; }
    assert s * a + r < a * b by { MulLe(s + 1, b, a); }
    assert 0 <= s * a;
    MulLe(1, b, a);
    DivModUnique(n, a * b, p, s * a + r);
  }

  // ---------------------------------------------------------------- scalars

  /** A fixed-size value by what it denotes. A flag may be written as any byte, zero for false. */
  datatype Datum = Int(tag: nat, n: int) | Float(tag: nat, bits: nat) | Flag(b: bool, raw: Byte)

  /** Bytes of each fixed-size type: UINT8, INT8, UINT16, INT16, UINT32, INT32, FLOAT32, BOOL, UINT64, INT64 and
      FLOAT64. */
  function Width(tag: nat): nat {
    match tag
    case 0 => 1 case 1 => 1 case 2 => 2 case 3 => 2 case 4 => 4 case 5 => 4 case 6 => 4 case 7 => 1
    case 10 => 8 case 11 => 8 case 12 => 8
    case _ => 0
  }

  /** The numbers of an integer type; an unsigned 64-bit number only up to the largest signed one. */
  predicate InRange(tag: nat, n: int) {
    match tag
    case 0 => 0 <= n < 0x100
    case 1 => -0x80 <= n < 0x80
    case 2 => 0 <= n < 0x1_0000
    case 3 => -0x8000 <= n < 0x8000
    case 4 => 0 <= n < 0x1_0000_0000
    case 5 => -0x8000_0000 <= n < 0x8000_0000
    case 10 => 0 <= n < 0x8000_0000_0000_0000
    case 11 => -0x8000_0000_0000_0000 <= n < 0x8000_0000_0000_0000
    case _ => false
  }

  predicate Fits(d: Datum) {
    match d
    case Int(tag, n) => InRange(tag, n)
    case Float(tag, bits) => (tag == 6 && bits < 0x1_0000_0000) || (tag == 12 && bits < 0x1_0000_0000_0000_0000)
    case Flag(b, raw) => b <==> raw != 0
  }

  function TypeOf(d: Datum): nat {
    match d case Int(tag, _) => tag case Float(tag, _) => tag case Flag(_, _) => 7
  }

  /** What two's complement adds to a negative number of a signed type. */
  function Modulus(tag: nat): nat {
    match tag
    case 1 => 0x100 case 3 => 0x1_0000 case 5 => 0x1_0000_0000 case 11 => 0x1_0000_0000_0000_0000
    case _ => 0
  }

  /** The field that holds it: two's complement of the type's width, the pattern, or the byte. */
  function AsValue(d: Datum): Value
    requires Fits(d)
  {
    match d
    case Int(tag, n) => Pod(tag, if n < 0 then n + Modulus(tag) else n)
    case Float(tag, bits) => Pod(tag, bits)
    case Flag(_, raw) => Pod(7, raw)
  }

  function Meaning(d: Datum): MetaValue {
    match d case Int(_, n) => IntV(n) case Float(tag, bits) => FloatV(bits, Width(tag)) case Flag(b, _) => BoolV(b)
  }

  lemma Widths()
    ensures Pow256(1) == 0x100 && Pow256(2) == 0x1_0000 && Pow256(4) == 0x1_0000_0000
    ensures Pow256(8) == 0x1_0000_0000_0000_0000
  {
    FourBytes();
    EightBytes();
    assert Pow256(2) == 256 * Pow256(1) && Pow256(1) == 256 * Pow256(0);
  }

  /** A value that fits is one the format can express, and what the parser keeps of it is what it denotes. */
  lemma DatumKept(d: Datum)
    requires Fits(d)
    ensures WellTyped(AsValue(d)) && TagOf(AsValue(d)) == TypeOf(d)
    ensures |PrintValue(AsValue(d))| == Width(TypeOf(d)) > 0
    ensures Kept(AsValue(d)) == Meaning(d)
  {
    hide Pow256, LE;
    Widths();
  }

  /** An unsigned 64-bit number comes back exactly below 2^63, and otherwise less by 2^64. */
  lemma Unsigned64(n: nat)
    requires n < 0x1_0000_0000_0000_0000
    ensures Kept(Pod(10, n)) == IntV(n) <==> n < 0x8000_0000_0000_0000
    ensures n >= 0x8000_0000_0000_0000 ==> Kept(Pod(10, n)) == IntV(n - 0x1_0000_0000_0000_0000)
  {
    hide Pow256;
    Widths();
  }

  /** Wherever its bytes occur the reader finds what they denote and stops behind them. */
  lemma ReadsDatum(b: Bytes, off: nat, d: Datum)
    requires Fits(d) && OccursAt(b, PrintValue(AsValue(d)), off)
    ensures ReadValue(b, off, TypeOf(d)) == Ok(Read(Meaning(d), off + Width(TypeOf(d))))
  {
    hide ReadValue, PrintValue, OccursAt;
    DatumKept(d);
    ValueBack(b, off, AsValue(d));
  }

  // ---------------------------------------------------------------- whole files

  lemma EntryFound(m: Image, align: nat, i: nat)
    requires align > 0 && WellFormed(m, align) && DistinctKeys(m.entries) && i < |m.entries|
    ensures align > 0 && Parsed(Print(m, align)).Ok? && Holds(Parsed(Print(m, align)).value.tables, m.entries[i])
  {
    hide Parsed, Print, Holds;
    RoundTrip(m, align);
  }

  /** Every scalar of a file comes back as what it denotes. */
  lemma ScalarBack(m: Image, align: nat, i: nat, d: Datum)
    requires align > 0 && WellFormed(m, align) && DistinctKeys(m.entries) && i < |m.entries|
    requires Fits(d) && m.entries[i].value == AsValue(d)
    ensures var f := Parsed(Print(m, align));
            && f.Ok? && m.entries[i].key in f.value.tables.meta
            && f.value.tables.meta[m.entries[i].key] == Meaning(d)
  {
    hide Parsed, Print, WellFormed, DistinctKeys, Kept;
    EntryFound(m, align, i);
    DatumKept(d);
  }

  lemma {:induction false} KeptAt(items: seq<Value>, j: nat)
    requires j < |items|
    ensures |KeptItems(items)| == |items| && KeptItems(items)[j] == Kept(items[j])
    decreases items
  {
    if j > 0 {
      KeptAt(items[1..], j - 1);
    } else {
      KeptLength(items);
    }
  }

  lemma {:induction false} KeptLength(items: seq<Value>)
    ensures |KeptItems(items)| == |items|
    decreases items
  {
    if items != [] { KeptLength(items[1..]); }
  }

  /** So does every element of an array of numbers, in the table of its kind. */
  lemma ArrayBack(m: Image, align: nat, i: nat, tag: nat, ds: seq<Datum>)
    requires align > 0 && WellFormed(m, align) && DistinctKeys(m.entries) && i < |m.entries|
    requires forall j | 0 <= j < |ds| :: Fits(ds[j]) && !ds[j].Flag? && TypeOf(ds[j]) == tag
    requires tag in {0, 1, 2, 3, 4, 5, 6, 10, 11, 12}
    requires m.entries[i].value == Arr(tag, seq(|ds|, j requires 0 <= j < |ds| => AsValue(ds[j])))
    ensures var f := Parsed(Print(m, align)); var key := m.entries[i].key;
            && f.Ok?
            && var table := if tag in {6, 12} then f.value.tables.floats else f.value.tables.ints;
               && key in table && |table[key]| == |ds|
               && forall j | 0 <= j < |ds| :: table[key][j] == Meaning(ds[j])
  {
    hide Parsed, Print, WellFormed, DistinctKeys, Kept, AsValue, KeptItems, Fits;
    EntryFound(m, align, i);
    var tables, e := Parsed(Print(m, align)).value.tables, m.entries[i];
    KeptLength(e.value.items);
    forall j | 0 <= j < |ds|
      ensures KeptItems(e.value.items)[j] == Meaning(ds[j])
    {
      KeptAt(e.value.items, j);
      DatumKept(ds[j]);
    }
    assert Arrays(tables, Shelf(tag))[e.key] == KeptItems(e.value.items);
  }

  /** Strings come back byte for byte, alone and in arrays. */
  lemma StringsBack(m: Image, align: nat, i: nat, s: Bytes, ss: seq<Bytes>)
    requires align > 0 && WellFormed(m, align) && DistinctKeys(m.entries) && i < |m.entries|
    ensures var f := Parsed(Print(m, align)); var key := m.entries[i].key;
            && f.Ok?
            && (m.entries[i].value == Str(s) ==>
                  key in f.value.tables.meta && f.value.tables.meta[key] == StrV(s))
            && (m.entries[i].value == Arr(8, seq(|ss|, j requires 0 <= j < |ss| => Str(ss[j]))) ==>
                  && key in f.value.tables.strings && |f.value.tables.strings[key]| == |ss|
                  && forall j | 0 <= j < |ss| :: f.value.tables.strings[key][j] == StrV(ss[j]))
  {
    hide Parsed, Print, WellFormed, DistinctKeys, KeptItems;
    EntryFound(m, align, i);
    var tables, e := Parsed(Print(m, align)).value.tables, m.entries[i];
    if e.value == Arr(8, seq(|ss|, j requires 0 <= j < |ss| => Str(ss[j]))) {
      KeptLength(e.value.items);
      forall j | 0 <= j < |ss|
        ensures KeptItems(e.value.items)[j] == StrV(ss[j])
      {
        KeptAt(e.value.items, j);
      }
      assert Arrays(tables, 0)[e.key] == KeptItems(e.value.items);
    }
  }

  // ---------------------------------------------------------------- repeated keys

  lemma {:induction false} TablesSnoc(es: seq<Entry>, e: Entry, t: Tables)
    ensures TablesOf(es + [e], t) == Filed(TablesOf(es, t), e)
    decreases es
  {
    hide Filed;
    if es == [] {
      assert [] + [e] == [e] && [e][1..] == [];
    } else {
      assert (es + [e])[1..] == es[1..] + [e];
      TablesSnoc(es[1..], e, Filed(t, es[0]));
    }
  }

  /** An array under a key seen before is appended to what is there; a scalar replaces it. */
  lemma RepeatedKey(es: seq<Entry>, e: Entry)
    ensures var before, after := TablesOf(es, NO_TABLES), TablesOf(es + [e], NO_TABLES);
            match e.value
            case Arr(elem, items) =>
              Shelf(elem) < 3 ==>
                && e.key in Arrays(after, Shelf(elem))
                && Arrays(after, Shelf(elem))[e.key] ==
                   (if e.key in Arrays(before, Shelf(elem)) then Arrays(before, Shelf(elem))[e.key] else []) +
                   KeptItems(items)
            case _ => e.key in after.meta && after.meta[e.key] == Kept(e.value)
  {
    hide KeptItems, Kept, TablesOf;
    TablesSnoc(es, e, NO_TABLES);
  }

  // ---------------------------------------------------------------- alignment

  function Power(k: nat): (p: nat)
    ensures p > 0
  {
    if k == 0 then 1 else 2 * Power(k - 1)
  }

  lemma {:induction false} PowerOfTwoIs(n: nat) returns (k: nat)
    requires PowerOfTwo(n)
    ensures n == Power(k)
    decreases n
  {
    if n == 1 {
      k := 0;
    } else {
      var j := PowerOfTwoIs(n / 2);
      k := j + 1;
    }
  }

  lemma {:induction false} PowersPass(k: nat)
    ensures PowerOfTwo(Power(k))
  {
    if k > 0 { PowersPass(k - 1); }
  }

  lemma AlignmentMeans(meta: map<Bytes, MetaValue>)
    ensures ALIGNMENT_KEY !in meta ==> Alignment(meta) == Ok(32)
    ensures ALIGNMENT_KEY in meta && Alignment(meta).Ok? ==> meta[ALIGNMENT_KEY] == IntV(Alignment(meta).value)
    ensures Alignment(meta).Ok? ==> exists k :: Alignment(meta).value == Power(k)
    ensures forall k | Power(k) <= 0x10_0000 ::
              ALIGNMENT_KEY in meta && meta[ALIGNMENT_KEY] == IntV(Power(k)) ==> Alignment(meta) == Ok(Power(k))
  {
    hide Power, PowerOfTwo;
    forall k
      ensures PowerOfTwo(Power(k))
    {
      PowersPass(k);
    }
    ThirtyTwo();
    if Alignment(meta).Ok? {
      var k := PowerOfTwoIs(Alignment(meta).value);
    }
  }

  lemma ThirtyTwo()
    ensures PowerOfTwo(32)
  {
    assert PowerOfTwo(4);
    assert PowerOfTwo(16);
  }

  lemma ParsedAlignment(b: Bytes)
    requires Parsed(b).Ok?
    ensures Alignment(Parsed(b).value.tables.meta) == Ok(Parsed(b).value.align)
    ensures Parsed(b).value.dataOffset % Parsed(b).value.align == 0
  {
    hide ReadHeader, ReadEntries, ReadTensors, Alignment, AlignUp, TensorsOk;
    FileTensorsOk(b);
  }

  /** The alignment of an accepted file is the integer stored under its key, or 32 without the key, and a power of
      two. */
  lemma AlignmentStored(b: Bytes)
    requires Parsed(b).Ok?
    ensures var f := Parsed(b).value;
            && (ALIGNMENT_KEY in f.tables.meta ==> f.tables.meta[ALIGNMENT_KEY] == IntV(f.align))
            && (ALIGNMENT_KEY !in f.tables.meta ==> f.align == 32)
            && exists k :: f.align == Power(k)
  {
    hide Parsed, Alignment, Power;
    ParsedAlignment(b);
    AlignmentMeans(Parsed(b).value.tables.meta);
  }
}
