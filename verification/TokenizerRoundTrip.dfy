/** When decoding undoes encoding. */
module TokenizerRoundTrip {
  import opened Common
  import opened Bpe
  import opened Tokenizer

  // ---------------------------------------------------------------- UTF-8

  predicate Cont(c: Byte) {
    0x80 <= c < 0xC0
  }

  /** A lead byte followed by as many continuation bytes as it announces. */
  predicate FramedChar(c: Bytes) {
    && c != [] && |c| == Utf8Len(c[0])
    && (|c| == 1 ==> c[0] < 0x80)
    && forall i | 1 <= i < |c| :: Cont(c[i])
  }

  /** A run of framed characters: a superset of well-formed UTF-8 that also admits overlong forms and surrogates. */
  predicate Framed(s: Bytes) {
    s == [] || (Utf8Len(s[0]) <= |s| && FramedChar(s[..Utf8Len(s[0])]) && Framed(s[Utf8Len(s[0])..]))
  }

  /** One character by the grammar in section 4 of RFC 3629. */
  predicate WellFormedChar(c: Bytes) {
    || (|c| == 1 && c[0] <= 0x7F)
    || (|c| == 2 && 0xC2 <= c[0] <= 0xDF && Cont(c[1]))
    || (|c| == 3 && Cont(c[1]) && Cont(c[2])
        && ((c[0] == 0xE0 && c[1] >= 0xA0) || 0xE1 <= c[0] <= 0xEC ||
            (c[0] == 0xED && c[1] <= 0x9F) || 0xEE <= c[0] <= 0xEF))
    || (|c| == 4 && Cont(c[1]) && Cont(c[2]) && Cont(c[3])
        && ((c[0] == 0xF0 && c[1] >= 0x90) || 0xF1 <= c[0] <= 0xF3 || (c[0] == 0xF4 && c[1] <= 0x8F)))
  }

  ghost predicate WellFormed(s: Bytes)
    decreases |s|
  {
    s == [] || exists n: nat | 0 < n <= |s| :: WellFormedChar(s[..n]) && WellFormed(s[n..])
  }

  lemma {:induction false} WellFormedIsFramed(s: Bytes)
    requires WellFormed(s)
    ensures Framed(s)
    decreases |s|
  {
    if s != [] {
      var n: nat :| 0 < n <= |s| && WellFormedChar(s[..n]) && WellFormed(s[n..]);
      assert s[..n][0] == s[0] && n == Utf8Len(s[0]);
      WellFormedIsFramed(s[n..]);
    }
  }

  lemma FramedCons(c: Bytes, x: Bytes)
    requires FramedChar(c)
    ensures Utf8Len((c + x)[0]) == |c| && (c + x)[..|c|] == c && (c + x)[|c|..] == x
    ensures Framed(c + x) <==> Framed(x)
    ensures Chars(c + x) == [c] + Chars(x)
  {
  }

  lemma {:induction false} FramedAppend(a: Bytes, b: Bytes)
    requires Framed(a)
    ensures Framed(a + b) <==> Framed(b)
    decreases |a|
  {
    if a == [] {
      assert a + b == b;
    } else {
      var n := Utf8Len(a[0]);
      assert a + b == a[..n] + (a[n..] + b);
      FramedAppend(a[n..], b);
      FramedCons(a[..n], a[n..] + b);
    }
  }

  // ---------------------------------------------------------------- marks and spaces

  lemma MarkLeads(p: Bytes)
    ensures OccursAt(p, SPACE_MARK, 0) ==> p[0] == SPACE_MARK[0]
  {
    if OccursAt(p, SPACE_MARK, 0) {
      assert p[0] == p[0..3][0];
    }
  }

  lemma {:induction false} UnmarkTail(t: Bytes, x: Bytes)
    requires forall i | 0 <= i < |t| :: t[i] != SPACE_MARK[0]
    ensures Unmark(t + x) == t + Unmark(x)
    decreases |t|
  {
    if t == [] {
      assert t + x == x;
    } else {
      UnmarkTail(t[1..], x);
      assert (t + x)[1..] == t[1..] + x;
      MarkLeads(t + x);
    }
  }

  lemma UnmarkChar(c: Bytes, x: Bytes)
    requires FramedChar(c)
    ensures Unmark(c + x) == (if c == SPACE_MARK then [0x20] else c) + Unmark(x)
  {
    if c == SPACE_MARK {
      assert OccursAt(c + x, SPACE_MARK, 0) && (c + x)[3..] == x;
    } else if c[0] != SPACE_MARK[0] {
      UnmarkTail(c, x);
    } else {
      assert |c| == 3 && (c + x)[0..3] == c;
      assert (c + x)[1..] == c[1..] + x;
      UnmarkTail(c[1..], x);
      assert [c[0]] + (c[1..] + Unmark(x)) == c + Unmark(x);
    }
  }

  lemma FirstChar(t: Bytes) returns (c: Bytes, rest: Bytes)
    requires Framed(t) && t != []
    ensures FramedChar(c) && c != [] && Framed(rest) && t == c + rest
  {
    var n := Utf8Len(t[0]);
    c, rest := t[..n], t[n..];
  }

  lemma EmptyText()
    ensures Framed([]) && Unmark([]) == []
  {
  }

  lemma {:induction false} UnmarkSplit(a: Bytes, b: Bytes)
    requires Framed(a)
    ensures Unmark(a + b) == Unmark(a) + Unmark(b)
    decreases |a|
  {
    hide Framed, FramedChar, Unmark;
    if a == [] {
      assert a + b == b;
      EmptyText();
      assert [] + Unmark(b) == Unmark(b);
    } else {
      var c, rest := FirstChar(a);
      assert a + b == c + (rest + b);
      UnmarkChar(c, rest + b);
      UnmarkChar(c, rest);
      UnmarkSplit(rest, b);
    }
  }

  lemma {:induction false} SpacedAppend(a: Bytes, b: Bytes)
    ensures Spaced(a + b) == Spaced(a) + Spaced(b)
    decreases |a|
  {
    if a == [] {
      assert a + b == b;
    } else {
      assert (a + b)[1..] == a[1..] + b;
      SpacedAppend(a[1..], b);
    }
  }

  lemma {:induction false} SpacelessSame(c: Bytes)
    requires 0x20 !in c
    ensures Spaced(c) == c
    decreases |c|
  {
    if c != [] { SpacelessSame(c[1..]); }
  }

  lemma SpacedChar(c: Bytes)
    requires FramedChar(c)
    ensures Spaced(c) == if c == [0x20] then SPACE_MARK else c
  {
    if c == [0x20] {
      assert c[1..] == [];
    } else {
      SpacelessSame(c);
    }
  }

  /** Marking the spaces keeps the characters framed, and unmarking afterwards loses only original marks. */
  lemma {:induction false} UnmarkSpaced(t: Bytes)
    requires Framed(t)
    ensures Framed(Spaced(t)) && Unmark(Spaced(t)) == Unmark(t)
    decreases |t|
  {
    if t != [] {
      var n := Utf8Len(t[0]);
      var c, rest := t[..n], t[n..];
      assert t == c + rest;
      UnmarkSpaced(rest);
      SpacedAppend(c, rest);
      SpacedChar(c);
      UnmarkChar(c, rest);
      FramedCons(Spaced(c), Spaced(rest));
      UnmarkChar(Spaced(c), Spaced(rest));
    }
  }

  lemma OccursLater(t: Bytes, needle: Bytes, at: nat)
    requires t != []
    ensures OccursAt(t, needle, at + 1) <==> OccursAt(t[1..], needle, at)
  {
    if at + 1 + |needle| <= |t| {
      assert t[at + 1..at + 1 + |needle|] == t[1..][at..at + |needle|];
    }
  }

  /** A text contains the needle at its start or in its tail. */
  lemma ContainsTail(t: Bytes, needle: Bytes)
    requires t != []
    ensures Contains(t, needle) <==> OccursAt(t, needle, 0) || Contains(t[1..], needle)
  {
    hide OccursAt;
    if Contains(t, needle) && !OccursAt(t, needle, 0) {
      var at: nat :| at <= |t| && OccursAt(t, needle, at);
      OccursLater(t, needle, at - 1);
    }
    if Contains(t[1..], needle) {
      var at: nat :| at <= |t[1..]| && OccursAt(t[1..], needle, at);
      OccursLater(t, needle, at);
    }
  }

  lemma UnmarkUnfold(t: Bytes)
    requires t != []
    ensures OccursAt(t, SPACE_MARK, 0) ==> |t| >= 3 && Unmark(t) == [0x20] + Unmark(t[3..])
    ensures !OccursAt(t, SPACE_MARK, 0) ==> Unmark(t) == [t[0]] + Unmark(t[1..])
  {
  }

  lemma NoMarkInNothing()
    ensures Unmark([]) == [] && !Contains([], SPACE_MARK)
  {
  }

  lemma {:induction false} UnmarkShrinks(t: Bytes)
    ensures |Unmark(t)| <= |t|
    ensures Contains(t, SPACE_MARK) ==> |Unmark(t)| < |t|
    ensures !Contains(t, SPACE_MARK) ==> Unmark(t) == t
    decreases |t|
  {
    hide Unmark, Contains, OccursAt;
    if t == [] {
      NoMarkInNothing();
    } else {
      UnmarkUnfold(t);
      ContainsTail(t, SPACE_MARK);
      if OccursAt(t, SPACE_MARK, 0) {
        UnmarkShrinks(t[3..]);
      } else {
        UnmarkShrinks(t[1..]);
      }
    }
  }

  // ---------------------------------------------------------------- symbols

  function Concat(syms: seq<Bytes>): Bytes {
    if syms == [] then [] else syms[0] + Concat(syms[1..])
  }

  lemma {:induction false} ConcatAppend(a: seq<Bytes>, b: seq<Bytes>)
    ensures Concat(a + b) == Concat(a) + Concat(b)
    decreases |a|
  {
    if a == [] {
      assert a + b == b;
    } else {
      assert (a + b)[1..] == a[1..] + b;
      ConcatAppend(a[1..], b);
    }
  }

  /** What the round trip needs of a vocabulary: the mark and every merge result have an entry, and the 256
      byte tokens are typed as bytes. */
  ghost predicate Faithful(v: Vocab) {
    && Valid(v)
    && SPACE_MARK in v.ids
    && (forall l, r :: Key(v.order, l, r).Some? ==> l + r in v.ids)
    && forall b: Byte :: v.types[v.byteToken[b]] == TYPE_BYTE
  }

  /** A symbol the merge loop can produce. */
  ghost predicate Symbol(v: Vocab, s: Bytes) {
    s != [] && Framed(s) && (FramedChar(s) || s in v.ids)
  }

  lemma {:induction false} CharsAreSymbols(v: Vocab, s: Bytes)
    requires Framed(s)
    ensures forall c | c in Chars(s) :: Symbol(v, c)
    ensures Concat(Chars(s)) == s
    decreases |s|
  {
    if s != [] {
      var n := Utf8Len(s[0]);
      assert s == s[..n] + s[n..];
      FramedCons(s[..n], s[n..]);
      CharsAreSymbols(v, s[n..]);
      FramedCons(s[..n], []);
      assert s[..n] + [] == s[..n];
    }
  }

  lemma ConcatPair(l: Bytes, r: Bytes)
    ensures Concat([l, r]) == Concat([l + r])
  {
    var none: seq<Bytes> := [];
    assert [l, r][1..] == [r] && [r][1..] == none && [l + r][1..] == none;
    assert l + (r + []) == l + r && (l + r) + [] == l + r;
  }

  lemma SplitAround(syms: seq<Bytes>, k: nat)
    requires k + 1 < |syms|
    ensures syms == syms[..k] + [syms[k], syms[k + 1]] + syms[k + 2..]
  {
  }

  lemma MergeAtParts(syms: seq<Bytes>, k: nat)
    requires k + 1 < |syms|
    ensures MergeAt(syms, k) == syms[..k] + [syms[k] + syms[k + 1]] + syms[k + 2..]
  {
  }

  lemma ConcatThree(a: seq<Bytes>, b: seq<Bytes>, c: seq<Bytes>)
    ensures Concat(a + b + c) == Concat(a) + Concat(b) + Concat(c)
  {
    hide Concat;
    ConcatAppend(a + b, c);
    ConcatAppend(a, b);
  }

  lemma ConcatMerged(syms: seq<Bytes>, k: nat)
    requires k + 1 < |syms|
    ensures Concat(MergeAt(syms, k)) == Concat(syms)
  {
    hide Concat, MergeAt;
    SplitAround(syms, k);
    MergeAtParts(syms, k);
    ConcatThree(syms[..k], [syms[k], syms[k + 1]], syms[k + 2..]);
    ConcatThree(syms[..k], [syms[k] + syms[k + 1]], syms[k + 2..]);
    ConcatPair(syms[k], syms[k + 1]);
  }

  lemma MergeKeepsSymbols(v: Vocab, syms: seq<Bytes>, k: nat)
    requires Faithful(v) && PairKey(v.order, syms, k).Some?
    requires forall s | s in syms :: Symbol(v, s)
    ensures forall s | s in MergeAt(syms, k) :: Symbol(v, s)
  {
    hide Key, Framed, FramedChar;
    var l, r := syms[k], syms[k + 1];
    assert Symbol(v, l) && Symbol(v, r);
    FramedAppend(l, r);
    assert Symbol(v, l + r);
    forall s | s in MergeAt(syms, k)
      ensures Symbol(v, s)
    {
      var j: nat :| j < |MergeAt(syms, k)| && MergeAt(syms, k)[j] == s;
      if j < k {
        assert s == syms[j] && syms[j] in syms;
      } else if j > k {
        assert s == syms[j + 1] && syms[j + 1] in syms;
      }
    }
  }

  /** Merging never adds, drops or reorders a byte, and only ever builds vocabulary entries. */
  lemma {:induction false} RescanKeepsText(v: Vocab, syms: seq<Bytes>)
    requires Faithful(v) && forall s | s in syms :: Symbol(v, s)
    ensures forall s | s in Rescan(v.order, syms) :: Symbol(v, s)
    ensures Concat(Rescan(v.order, syms)) == Concat(syms)
    decreases |syms|
  {
    var best := FindBest(v.order, syms, 0);
    if best.Some? {
      MergeKeepsSymbols(v, syms, best.value);
      ConcatMerged(syms, best.value);
      RescanKeepsText(v, MergeAt(syms, best.value));
    }
  }

  lemma SymbolsSpellText(v: Vocab, text: Bytes)
    requires Faithful(v) && Framed(text)
    ensures forall s | s in Symbols(v, text) :: Symbol(v, s)
    ensures Concat(Symbols(v, text)) == Normalized(text)
    ensures Unmark(Normalized(text)) == [0x20] + Unmark(text)
  {
    hide Rescan, Chars, Unmark, Spaced, Framed;
    UnmarkSpaced(text);
    FramedCons(SPACE_MARK, Spaced(text));
    UnmarkChar(SPACE_MARK, Spaced(text));
    CharsAreSymbols(v, Normalized(text));
    RescanKeepsText(v, Chars(Normalized(text)));
  }

  // ---------------------------------------------------------------- decoding symbols

  lemma ByteTokenDecodes(v: Vocab, b: Byte)
    requires Faithful(v)
    ensures PieceText(v, v.byteToken[b]) == Ok([b])
  {
    assert v.pieces[v.byteToken[b]] == ByteName(b);
    var high, low := b / 16, b % 16;
    assert HexValue(HexDigit(high)) == Some(high) && HexValue(HexDigit(low)) == Some(low);
  }

  lemma {:induction false} JoinedAppend(v: Vocab, a: seq<int>, b: seq<int>)
    requires |v.types| == |v.pieces|
    ensures Joined(v, a + b) == (match Joined(v, a) case Err(e) => Err(e) case Ok(x) =>
                                   match Joined(v, b) case Err(e) => Err(e) case Ok(y) => Ok(x + y))
    decreases |a|
  {
    if a == [] {
      assert a + b == b;
      match Joined(v, b) { case Err(_) => case Ok(y) => assert [] + y == y; }
    } else {
      assert (a + b)[1..] == a[1..] + b;
      JoinedAppend(v, a[1..], b);
      match PieceText(v, a[0]) {
        case Err(_) =>
        case Ok(p) =>
          if Joined(v, a[1..]).Ok? && Joined(v, b).Ok? {
            var x, y := Joined(v, a[1..]).value, Joined(v, b).value;
            assert p + (x + y) == p + x + y;
          }
      }
    }
  }

  lemma {:induction false} BytesDecode(v: Vocab, s: Bytes, ids: seq<int>)
    requires Faithful(v)
    requires |ids| == |s| && forall i: nat | i < |s| :: ids[i] == v.byteToken[s[i]]
    ensures Joined(v, ids) == Ok(s)
    decreases |s|
  {
    if s != [] {
      ByteTokenDecodes(v, s[0]);
      BytesDecode(v, s[1..], ids[1..]);
      assert s == [s[0]] + s[1..];
    }
  }

  /** An entry that does not decode to its own spelling: a control token, or a byte token. */
  predicate Special(v: Vocab, s: Bytes)
    requires |v.types| == |v.pieces|
  {
    s in v.ids && v.ids[s] < |v.pieces|
    && (v.types[v.ids[s]] == TYPE_CONTROL || (v.types[v.ids[s]] == TYPE_BYTE && |v.pieces[v.ids[s]]| == 6))
  }

  lemma SymbolDecodes(v: Vocab, s: Bytes)
    requires Faithful(v) && Symbol(v, s)
    ensures !Special(v, s) ==> Joined(v, SymbolIds(v, s)) == Ok(Unmark(s))
  {
    if s in v.ids {
      assert SymbolIds(v, s)[1..] == [];
      if !Special(v, s) {
        assert Unmark(s) + [] == Unmark(s);
      }
    } else {
      UnmarkChar(s, []);
      assert s + [] == s;
      BytesDecode(v, s, SymbolIds(v, s));
    }
  }

  lemma {:induction false} SymbolsDecode(v: Vocab, syms: seq<Bytes>)
    requires Faithful(v) && forall s | s in syms :: Symbol(v, s) && !Special(v, s)
    ensures Joined(v, Ids(v, syms)) == Ok(Unmark(Concat(syms)))
    decreases |syms|
  {
    if syms != [] {
      assert syms[0] in syms;
      SymbolDecodes(v, syms[0]);
      SymbolsDecode(v, syms[1..]);
      JoinedAppend(v, SymbolIds(v, syms[0]), Ids(v, syms[1..]));
      UnmarkSplit(syms[0], Concat(syms[1..]));
    }
  }

  // ---------------------------------------------------------------- text without control tokens

  /** Neither special token is spelled out in the text. */
  ghost predicate ControlFree(v: Vocab, text: Bytes)
    requires Specials(v)
  {
    !Contains(text, v.pieces[v.bos]) && !Contains(text, v.pieces[v.eos])
  }

  /** No control- or byte-typed entry is spelled out in the normalized text. */
  ghost predicate SpecialFree(v: Vocab, text: Bytes)
    requires |v.types| == |v.pieces|
  {
    forall s | s in v.ids && Special(v, s) :: !Contains(Normalized(text), s)
  }

  /** No symbol of the text resolves to a control- or byte-typed entry. */
  ghost predicate Ordinary(v: Vocab, text: Bytes)
    requires |v.types| == |v.pieces|
  {
    text == [] || forall s | s in Symbols(v, text) :: !Special(v, s)
  }

  lemma {:induction false} SymbolOccurs(syms: seq<Bytes>, s: Bytes)
    requires s in syms
    ensures Contains(Concat(syms), s)
    decreases |syms|
  {
    if s == syms[0] {
      assert OccursAt(Concat(syms), s, 0);
    } else {
      SymbolOccurs(syms[1..], s);
      var at: nat :| at <= |Concat(syms[1..])| && OccursAt(Concat(syms[1..]), s, at);
      assert OccursAt(Concat(syms), s, |syms[0]| + at);
    }
  }

  /** A condition on the text alone that guarantees it. */
  lemma SpecialFreeIsOrdinary(v: Vocab, text: Bytes)
    requires Faithful(v) && Framed(text) && SpecialFree(v, text)
    ensures Ordinary(v, text)
  {
    hide Rescan, Chars, Unmark, Concat, Normalized;
    var syms := Symbols(v, text);
    SymbolsSpellText(v, text);
    forall s | s in syms
      ensures !Special(v, s)
    {
      SymbolOccurs(syms, s);
    }
  }

  /** Plain text decodes to itself with U+2581 turned into a space, one space in front. */
  lemma PlainDecodes(v: Vocab, text: Bytes)
    requires Faithful(v) && Framed(text) && Ordinary(v, text) && text != []
    ensures Joined(v, PlainIds(v, text)) == Ok([0x20] + Unmark(text))
  {
    hide Rescan, Chars, Unmark, Concat, Normalized, Ids;
    SymbolsSpellText(v, text);
    SymbolsDecode(v, Symbols(v, text));
  }

  lemma ControlFreeEncodes(v: Vocab, text: Bytes)
    requires Valid(v) && Specials(v) && ControlFree(v, text)
    ensures IdsFrom(v, text, 0) == PlainIds(v, text)
  {
    hide PlainIds, Find;
    var next := NextControl(v, text, 0);
    NextControlFirst(v, text, 0, if next.Some? then next.value.pos else 0);
    assert text[0..] == text;
  }

  /** Text without control spellings and special symbols decodes to itself, every U+2581 turned into a space. */
  lemma OrdinaryRoundTrip(v: Vocab, text: Bytes, addBos: bool)
    requires Faithful(v) && Specials(v) && (addBos ==> v.types[v.bos] == TYPE_CONTROL)
    requires Framed(text) && ControlFree(v, text) && Ordinary(v, text)
    ensures Decoded(v, Encoded(v, text, addBos)) == Ok(Unmark(text))
  {
    hide PlainIds, IdsFrom, Unmark, Framed, ControlFree, Ordinary;
    PlainJoined(v, text, addBos);
    if text == [] {
      EmptyEncodes(v);
    } else {
      PlainDecodes(v, text);
      assert ([0x20] + Unmark(text))[1..] == Unmark(text);
    }
  }

  /** What the tokens of such a text join to, with or without the leading control token. */
  lemma PlainJoined(v: Vocab, text: Bytes, addBos: bool)
    requires Valid(v) && Specials(v) && ControlFree(v, text) && (addBos ==> v.types[v.bos] == TYPE_CONTROL)
    ensures Joined(v, Encoded(v, text, addBos)) == Joined(v, PlainIds(v, text))
  {
    hide PlainIds, IdsFrom, ControlFree;
    ControlFreeEncodes(v, text);
    BosDecodes(v, addBos);
    JoinedAppend(v, if addBos then [v.bos] else [], PlainIds(v, text));
    var p := Joined(v, PlainIds(v, text));
    assert p.Ok? ==> [] + p.value == p.value;
  }

  lemma BosDecodes(v: Vocab, addBos: bool)
    requires Specials(v) && |v.types| == |v.pieces| && (addBos ==> v.types[v.bos] == TYPE_CONTROL)
    ensures Joined(v, if addBos then [v.bos] else []) == Ok([])
  {
    if addBos {
      var none: Bytes := [];
      assert [v.bos][1..] == [] && none + none == none;
    }
  }

  lemma EmptyEncodes(v: Vocab)
    requires |v.byteToken| == 256
    ensures PlainIds(v, []) == [] && Unmark([]) == []
  {
  }
}
