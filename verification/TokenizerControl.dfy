/** What control-token spellings in the text do to the round trip. */
module TokenizerControl {
  import opened Common
  import opened Bpe
  import opened Tokenizer
  import opened TokenizerRoundTrip
  import opened TokenizerSpecials

  lemma CutInside(c: Bytes, rest: Bytes, at: nat)
    requires FramedChar(c) && 0 < at < |c + rest| && !Cont((c + rest)[at])
    ensures |c| <= at && (at - |c| < |rest| ==> !Cont(rest[at - |c|]))
    ensures (c + rest)[..at] == c + rest[..at - |c|] && (c + rest)[at..] == rest[at - |c|..]
  {
    FrontAt(c, rest, at);
  }

  lemma FrontAt(c: Bytes, rest: Bytes, at: nat)
    requires at < |c + rest|
    ensures at < |c| ==> (c + rest)[at] == c[at]
  {
  }

  /** Framed text may be cut in front of any byte that does not continue a character. */
  lemma {:induction false} CutFramed(t: Bytes, at: nat)
    requires Framed(t) && at <= |t| && (at < |t| ==> !Cont(t[at]))
    ensures Framed(t[..at]) && Framed(t[at..])
    decreases |t|
  {
    hide Framed, FramedChar, Cont;
    if at == 0 || at == |t| {
      EmptyText();
      assert (t[..at] == [] && t[at..] == t) || (t[..at] == t && t[at..] == []);
    } else {
      var c, rest := FirstChar(t);
      CutInside(c, rest, at);
      CutFramed(rest, at - |c|);
      FramedCons(c, rest[..at - |c|]);
    }
  }

  /** The control spellings are framed text of at least two bytes. */
  predicate LongControls(v: Vocab)
    requires Specials(v)
  {
    && Framed(v.pieces[v.bos]) && |v.pieces[v.bos]| >= 2
    && Framed(v.pieces[v.eos]) && |v.pieces[v.eos]| >= 2
  }

  lemma FramedStarts(s: Bytes)
    requires Framed(s) && s != []
    ensures !Cont(s[0])
  {
    assert s[..Utf8Len(s[0])][0] == s[0];
  }

  /** Around a control spelling the text falls into framed segments. */
  lemma SegmentsFramed(v: Vocab, text: Bytes, start: nat, c: Control)
    requires Specials(v) && LongControls(v) && start <= |text| && Framed(text[start..])
    requires NextControl(v, text, start) == Some(c)
    ensures Framed(text[start..c.pos]) && Framed(text[c.pos + |v.pieces[c.id]|..])
  {
    hide Framed, NextControl;
    NextControlFirst(v, text, start, start);
    var p, rest := v.pieces[c.id], text[start..];
    assert OccursAt(text, p, c.pos);
    FramedStarts(p);
    assert rest[c.pos - start] == text[c.pos] == p[0];
    CutFramed(rest, c.pos - start);
    assert rest[..c.pos - start] == text[start..c.pos];
    var tail := text[c.pos + |p|..];
    assert rest[c.pos - start..] == p + tail;
    FramedAppend(p, tail);
  }

  // ---------------------------------------------------------------- decoding never lengthens

  /** The first symbol starts with the dummy prefix; what it decodes to starts with a space or is shorter. */
  lemma FirstSymbolShrinks(v: Vocab, s: Bytes)
    requires Faithful(v) && Symbol(v, s) && OccursAt(s, SPACE_MARK, 0)
    ensures var p := Joined(v, SymbolIds(v, s));
            p.Ok? ==> |p.value| < |Unmark(s)| || (|p.value| == |Unmark(s)| && p.value[0] == 0x20)
  {
    SymbolDecodes(v, s);
    if Special(v, s) {
      assert SymbolIds(v, s)[1..] == [];
      if |s| == 6 { UnmarkNonEmpty(s[3..]); }
    }
  }

  lemma SegmentSymbolsShrink(v: Vocab, syms: seq<Bytes>, tail: Bytes)
    requires Faithful(v) && syms != [] && forall s | s in syms :: Symbol(v, s)
    requires Concat(syms) == SPACE_MARK + tail
    ensures var p := Joined(v, Ids(v, syms)); var bound := |Unmark(Concat(syms))|;
            p.Ok? ==> |p.value| < bound || (|p.value| == bound && |DropSpace(p.value)| < bound)
  {
    hide Unmark, Framed, Faithful;
    FaithfulSizes(v);
    var s, rest := syms[0], syms[1..];
    assert s in syms && Symbol(v, s);
    FirstCharacter(s, Concat(rest), tail);
    UnmarkNonEmpty(s);
    FirstSymbolShrinks(v, s);
    SymbolsShrink(v, rest);
    JoinedAppend(v, SymbolIds(v, s), Ids(v, rest));
    UnmarkSplit(s, Concat(rest));
  }

  lemma SegmentShrinks(v: Vocab, text: Bytes)
    requires Faithful(v) && Framed(text)
    ensures var p := Joined(v, PlainIds(v, text));
            p.Ok? ==> |p.value| <= |text| + 1 && |DropSpace(p.value)| <= |text| && (text == [] ==> p.value == [])
  {
    hide Unmark, Spaced, Framed, Faithful, Symbols, Symbol, Ids;
    FaithfulSizes(v);
    UnmarkShrinks(text);
    if text == [] {
      EmptyEncodes(v);
    } else {
      SymbolsSpellText(v, text);
      SegmentSymbolsShrink(v, Symbols(v, text), Spaced(text));
    }
  }

  /** Length of what the tokens decode to; 0 where decoding fails. */
  function JoinedLen(v: Vocab, ids: seq<int>): nat
    requires |v.types| == |v.pieces|
  {
    match Joined(v, ids) case Err(_) => 0 case Ok(p) => |p|
  }

  /** The same after the dummy prefix is dropped. */
  function DroppedLen(v: Vocab, ids: seq<int>): nat
    requires |v.types| == |v.pieces|
  {
    match Joined(v, ids) case Err(_) => 0 case Ok(p) => |DropSpace(p)|
  }

  lemma JoinedLengths(v: Vocab, a: seq<int>, id: int, b: seq<int>)
    requires |v.types| == |v.pieces| && 0 <= id < |v.pieces| && v.types[id] == TYPE_CONTROL
    ensures JoinedLen(v, a + [id] + b) <= JoinedLen(v, a) + JoinedLen(v, b)
    ensures DroppedLen(v, a + [id] + b) <= DroppedLen(v, a) + JoinedLen(v, b)
  {
    JoinThree(v, a, id, b);
  }

  /** The premises of the exact round trip on the vocabulary. */
  ghost predicate ControlVocab(v: Vocab) {
    && Faithful(v) && Specials(v) && LongControls(v)
    && v.types[v.bos] == TYPE_CONTROL && v.types[v.eos] == TYPE_CONTROL
  }

  lemma SegmentLengths(v: Vocab, text: Bytes)
    requires Faithful(v) && Framed(text)
    ensures JoinedLen(v, PlainIds(v, text)) <= |text| + 1 && DroppedLen(v, PlainIds(v, text)) <= |text|
  {
    SegmentShrinks(v, text);
  }

  lemma ControlVocabSizes(v: Vocab)
    requires ControlVocab(v)
    ensures Faithful(v) && |v.types| == |v.pieces| && |v.byteToken| == 256 && Specials(v)
    ensures 0 <= v.bos < |v.pieces| && 0 <= v.eos < |v.pieces|
    ensures |v.pieces[v.bos]| >= 2 && |v.pieces[v.eos]| >= 2
    ensures v.types[v.bos] == TYPE_CONTROL && v.types[v.eos] == TYPE_CONTROL
  {
  }

  /** One unfolding of the split. */
  lemma SplitStep(v: Vocab, text: Bytes, start: nat)
    requires |v.byteToken| == 256 && Specials(v) && start <= |text|
    ensures match NextControl(v, text, start)
            case None => IdsFrom(v, text, start) == PlainIds(v, text[start..])
            case Some(c) => IdsFrom(v, text, start) ==
                              PlainIds(v, text[start..c.pos]) + [c.id] + IdsFrom(v, text, c.pos + |v.pieces[c.id]|)
  {
    hide PlainIds, NextControl;
  }

  lemma ControlStep(v: Vocab, text: Bytes, start: nat, c: Control)
    requires ControlVocab(v) && start <= |text| && Framed(text[start..]) && NextControl(v, text, start) == Some(c)
    ensures 0 <= c.id < |v.pieces| && |v.pieces[c.id]| >= 2
    ensures Framed(text[c.pos + |v.pieces[c.id]|..])
    ensures var rest := JoinedLen(v, IdsFrom(v, text, c.pos + |v.pieces[c.id]|));
            && JoinedLen(v, IdsFrom(v, text, start)) <= c.pos - start + 1 + rest
            && DroppedLen(v, IdsFrom(v, text, start)) <= c.pos - start + rest
  {
    hide *;
    ControlVocabSizes(v);
    ControlVocabLong(v);
    var next := c.pos + |v.pieces[c.id]|;
    SplitStep(v, text, start);
    SegmentsFramed(v, text, start, c);
    SegmentLengths(v, text[start..c.pos]);
    JoinedLengths(v, PlainIds(v, text[start..c.pos]), c.id, IdsFrom(v, text, next));
  }

  lemma ControlVocabLong(v: Vocab)
    requires ControlVocab(v)
    ensures Specials(v) && LongControls(v)
  {
  }

  /** From any segment boundary on, at most one byte is gained. */
  lemma {:induction false} FromShrinks(v: Vocab, text: Bytes, start: nat)
    requires ControlVocab(v) && start <= |text| && Framed(text[start..])
    ensures JoinedLen(v, IdsFrom(v, text, start)) <= |text| - start + 1
    decreases |text| - start
  {
    hide *;
    ControlVocabSizes(v);
    SplitStep(v, text, start);
    var next := NextControl(v, text, start);
    if next.None? {
      SegmentLengths(v, text[start..]);
    } else {
      ControlStep(v, text, start, next.value);
      FromShrinks(v, text, next.value.pos + |v.pieces[next.value.id]|);
    }
  }

  /** A control token between two runs of tokens decodes to nothing. */
  lemma JoinThree(v: Vocab, a: seq<int>, id: int, b: seq<int>)
    requires |v.types| == |v.pieces| && 0 <= id < |v.pieces| && v.types[id] == TYPE_CONTROL
    ensures Joined(v, a + [id] + b) == (match Joined(v, a) case Err(e) => Err(e) case Ok(x) =>
                                          match Joined(v, b) case Err(e) => Err(e) case Ok(y) => Ok(x + y))
  {
    var none: Bytes := [];
    assert [id][1..] == [] && none + none == none;
    JoinedAppend(v, a, [id]);
    JoinedAppend(v, a + [id], b);
    if Joined(v, a).Ok? { assert Joined(v, a).value + none == Joined(v, a).value; }
  }

  lemma ControlFound(v: Vocab, text: Bytes)
    requires Specials(v) && !ControlFree(v, text)
    ensures NextControl(v, text, 0).Some?
  {
    hide OccursAt, NextControl;
    var at: nat :| OccursAt(text, v.pieces[v.bos], at) || OccursAt(text, v.pieces[v.eos], at);
    NextControlFirst(v, text, 0, at);
  }

  /** A control spelling in the text makes the decoded text shorter than the original. */
  lemma ControlShrinks(v: Vocab, text: Bytes)
    requires ControlVocab(v) && Framed(text) && !ControlFree(v, text)
    ensures DroppedLen(v, IdsFrom(v, text, 0)) < |text|
  {
    hide *;
    ControlVocabSizes(v);
    ControlFound(v, text);
    var c := NextControl(v, text, 0).value;
    assert text[0..] == text;
    ControlStep(v, text, 0, c);
    FromShrinks(v, text, c.pos + |v.pieces[c.id]|);
  }

  /** Encoding then decoding returns the text if and only if neither a control token nor U+2581 is spelled out in
      it and none of its symbols resolves to some other control- or byte-typed entry. */
  lemma RoundTripExact(v: Vocab, text: Bytes, addBos: bool)
    requires ControlVocab(v) && Framed(text) && !Special(v, SPACE_MARK)
    ensures Decoded(v, Encoded(v, text, addBos)) == Ok(text) <==>
            ControlFree(v, text) && !Contains(text, SPACE_MARK) && Ordinary(v, text)
  {
    hide IdsFrom, Framed, Unmark, Faithful, LongControls, Ordinary;
    FaithfulSizes(v);
    if ControlFree(v, text) {
      PlainRoundTrip(v, text, addBos);
    } else {
      ControlShrinks(v, text);
      BosDecodes(v, addBos);
      JoinedAppend(v, if addBos then [v.bos] else [], IdsFrom(v, text, 0));
      var p := Joined(v, IdsFrom(v, text, 0));
      assert p.Ok? ==> [] + p.value == p.value;
    }
  }
}
