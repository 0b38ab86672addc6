/** Symbols that resolve to control- or byte-typed entries: they always cost text, so the round trip of plain text
    holds exactly without them. */
module TokenizerSpecials {
  import opened Common
  import opened Bpe
  import opened Tokenizer
  import opened TokenizerRoundTrip

  // ---------------------------------------------------------------- decoding never lengthens

  lemma FaithfulSizes(v: Vocab)
    requires Faithful(v)
    ensures |v.types| == |v.pieces| && |v.byteToken| == 256
  {
  }

  lemma UnmarkNonEmpty(s: Bytes)
    requires s != []
    ensures Unmark(s) != []
  {
  }

  lemma SymbolShrinks(v: Vocab, s: Bytes)
    requires Faithful(v) && Symbol(v, s)
    ensures var p := Joined(v, SymbolIds(v, s)); p.Ok? ==> |p.value| <= |Unmark(s)|
  {
    UnmarkNonEmpty(s);
    SymbolDecodes(v, s);
    if Special(v, s) {
      assert SymbolIds(v, s)[1..] == [];
    }
  }

  lemma {:induction false} SymbolsShrink(v: Vocab, syms: seq<Bytes>)
    requires Faithful(v) && forall s | s in syms :: Symbol(v, s)
    ensures var p := Joined(v, Ids(v, syms)); p.Ok? ==> |p.value| <= |Unmark(Concat(syms))|
    decreases |syms|
  {
    if syms != [] {
      assert syms[0] in syms;
      SymbolShrinks(v, syms[0]);
      SymbolsShrink(v, syms[1..]);
      JoinedAppend(v, SymbolIds(v, syms[0]), Ids(v, syms[1..]));
      UnmarkSplit(syms[0], Concat(syms[1..]));
    }
  }

  lemma FirstCharacter(s: Bytes, rest: Bytes, tail: Bytes)
    requires Framed(s) && s != [] && s + rest == SPACE_MARK + tail
    ensures OccursAt(s, SPACE_MARK, 0)
  {
    assert s[0] == (s + rest)[0] == SPACE_MARK[0];
    assert s[0..3] == (s + rest)[0..3] == SPACE_MARK;
  }

  // ---------------------------------------------------------------- special symbols lose text

  /** Unmarking divides a length by three at most. */
  lemma {:induction false} UnmarkThird(s: Bytes)
    ensures |s| <= 3 * |Unmark(s)|
    decreases |s|
  {
    hide Unmark, OccursAt;
    if s == [] {
      NoMarkInNothing();
    } else {
      UnmarkUnfold(s);
      UnmarkThird(if OccursAt(s, SPACE_MARK, 0) then s[3..] else s[1..]);
    }
  }

  lemma SpecialText(v: Vocab, s: Bytes)
    requires Valid(v) && Special(v, s)
    ensures var p := Joined(v, SymbolIds(v, s));
            p.Ok? ==> p.value == [] || (|s| == 6 && |p.value| == 1 && StoiHex(s[3], s[4]) == Ok(p.value[0]))
  {
    assert SymbolIds(v, s)[1..] == [];
  }

  /** A special symbol decodes to less than its spelling. */
  lemma SpecialShrinks(v: Vocab, s: Bytes)
    requires Valid(v) && s != [] && Special(v, s)
    ensures var p := Joined(v, SymbolIds(v, s)); p.Ok? ==> |p.value| < |Unmark(s)|
  {
    hide Joined, Unmark, StoiHex, Special;
    SpecialText(v, s);
    UnmarkThird(s);
  }

  /** The first symbol of a text, when special and longer than the dummy prefix, loses two bytes at least. */
  lemma SpecialFirstShrinks(v: Vocab, s: Bytes)
    requires Valid(v) && Special(v, s) && OccursAt(s, SPACE_MARK, 0) && s != SPACE_MARK
    ensures var p := Joined(v, SymbolIds(v, s)); p.Ok? ==> |p.value| + 2 <= |Unmark(s)|
  {
    hide Joined, Unmark, StoiHex, Special;
    SpecialText(v, s);
    MarkStart(s);
    UnmarkUnfold(s);
    UnmarkThird(s[3..]);
    if |s| == 6 {
      UnmarkUnfold(s[3..]);
      ThreeBytes(s[3..]);
      MarkIsNoHex();
    }
  }

  lemma WholeSlice(s: Bytes)
    ensures |s| == 3 ==> s[0..3] == s
  {
  }

  lemma MarkStart(s: Bytes)
    requires OccursAt(s, SPACE_MARK, 0) && s != SPACE_MARK
    ensures |s| > 3
  {
    WholeSlice(s);
  }

  /** Three bytes are the mark itself or unmark to more than one byte. */
  lemma ThreeBytes(s: Bytes)
    requires |s| == 3
    ensures OccursAt(s, SPACE_MARK, 0) ==> s[0] == SPACE_MARK[0] && s[1] == SPACE_MARK[1]
    ensures !OccursAt(s, SPACE_MARK, 0) ==> |Unmark(s)| >= 2
  {
    if OccursAt(s, SPACE_MARK, 0) {
      assert s == s[0..3];
    } else {
      UnmarkUnfold(s);
      UnmarkThird(s[1..]);
    }
  }

  lemma MarkIsNoHex()
    ensures StoiHex(SPACE_MARK[0], SPACE_MARK[1]).Err?
  {
  }

  predicate AnySpecial(v: Vocab, syms: seq<Bytes>)
    requires |v.types| == |v.pieces|
  {
    exists s | s in syms :: Special(v, s)
  }

  lemma {:induction false} SpecialsShrink(v: Vocab, syms: seq<Bytes>)
    requires Faithful(v) && (forall s | s in syms :: Symbol(v, s)) && AnySpecial(v, syms)
    ensures var p := Joined(v, Ids(v, syms)); p.Ok? ==> |p.value| < |Unmark(Concat(syms))|
    decreases |syms|
  {
    hide Unmark, Special, Framed, FramedChar, SymbolIds;
    FaithfulSizes(v);
    var s, rest := syms[0], syms[1..];
    assert s in syms && Symbol(v, s);
    SymbolShrinks(v, s);
    SymbolsShrink(v, rest);
    JoinedAppend(v, SymbolIds(v, s), Ids(v, rest));
    UnmarkSplit(s, Concat(rest));
    if Special(v, s) {
      SpecialShrinks(v, s);
    } else {
      SpecialsShrink(v, rest);
    }
  }

  /** With a special symbol anywhere, decoding and dropping the dummy prefix lose two bytes. */
  lemma MarkedLoses(v: Vocab, syms: seq<Bytes>, tail: Bytes)
    requires Faithful(v) && (forall s | s in syms :: Symbol(v, s)) && AnySpecial(v, syms)
    requires Concat(syms) == SPACE_MARK + tail && !Special(v, SPACE_MARK)
    ensures var p := Joined(v, Ids(v, syms)); p.Ok? ==> |DropSpace(p.value)| + 2 <= |Unmark(Concat(syms))|
  {
    hide Unmark, Special, Framed, FramedChar, SymbolIds, Faithful;
    FaithfulSizes(v);
    var s, rest := syms[0], syms[1..];
    assert s in syms && Symbol(v, s);
    FirstCharacter(s, Concat(rest), tail);
    SymbolsShrink(v, rest);
    JoinedAppend(v, SymbolIds(v, s), Ids(v, rest));
    UnmarkSplit(s, Concat(rest));
    if Special(v, s) {
      FaithfulValid(v);
      SpecialFirstShrinks(v, s);
    } else {
      SpecialsShrink(v, rest);
      SymbolDecodes(v, s);
      UnmarkUnfold(s);
    }
  }

  lemma FaithfulValid(v: Vocab)
    requires Faithful(v)
    ensures Valid(v)
  {
  }

  lemma SpecialTextLoses(v: Vocab, text: Bytes)
    requires Faithful(v) && Framed(text) && !Ordinary(v, text) && !Special(v, SPACE_MARK)
    ensures var p := Joined(v, PlainIds(v, text)); p.Ok? ==> |DropSpace(p.value)| < |Unmark(text)|
  {
    hide Unmark, Spaced, Framed, Faithful, Symbols, Symbol, Ids, Special;
    FaithfulSizes(v);
    SymbolsSpellText(v, text);
    var syms := Symbols(v, text);
    MarkedLoses(v, syms, Spaced(text));
  }

  /** The round trip of text without control spellings, exactly: decoding returns the text with every U+2581 as a
      space if and only if no symbol is special, and the text itself if and only if it holds no U+2581 either. */
  lemma PlainRoundTrip(v: Vocab, text: Bytes, addBos: bool)
    requires Faithful(v) && Specials(v) && (addBos ==> v.types[v.bos] == TYPE_CONTROL) && !Special(v, SPACE_MARK)
    requires Framed(text) && ControlFree(v, text)
    ensures Decoded(v, Encoded(v, text, addBos)) == Ok(Unmark(text)) <==> Ordinary(v, text)
    ensures Decoded(v, Encoded(v, text, addBos)) == Ok(text) <==> Ordinary(v, text) && !Contains(text, SPACE_MARK)
  {
    hide PlainIds, IdsFrom, Unmark, Framed, ControlFree, Ordinary, Special, Encoded, Contains, Faithful;
    FaithfulSizes(v);
    FaithfulValid(v);
    UnmarkShrinks(text);
    if Ordinary(v, text) {
      OrdinaryRoundTrip(v, text, addBos);
    } else {
      PlainJoined(v, text, addBos);
      SpecialTextLoses(v, text);
    }
  }
}
