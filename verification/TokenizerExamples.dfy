/** Concrete texts on which decoding does not restore the text, on a vocabulary the loader accepts. */
module TokenizerExamples {
  import opened Common
  import opened Bpe
  import opened Tokenizer
  import opened TokenizerRoundTrip

  const BOS: Bytes := [0x3C, 0x73, 0x3E]
  const EOS: Bytes := [0x3C, 0x2F, 0x73, 0x3E]
  const LETTER: Bytes := [0x61]

  function BytePieces(): (p: seq<Bytes>)
    ensures |p| == 256
  {
    seq(256, b requires 0 <= b < 256 => ByteName(b))
  }

  /** 256 byte tokens, the mark, the two special tokens, and a letter typed as control. */
  function Pieces(): (p: seq<Bytes>)
    ensures |p| == 260
  {
    BytePieces() + [SPACE_MARK, BOS, EOS, LETTER]
  }

  function Types(): (t: seq<int>)
    ensures |t| == 260
  {
    seq(256, _ => TYPE_BYTE) + [1, TYPE_CONTROL, TYPE_CONTROL, TYPE_CONTROL]
  }

  /** The loader's result on these tables. */
  ghost predicate Example(v: Vocab) {
    && Valid(v) && v.pieces == Pieces() && v.types == Types() && v.bos == 257 && v.eos == 258
    && v.order.ByRank? && v.order.rank == map[]
  }

  lemma PieceAt(i: nat)
    requires i < 260
    ensures i < 256 ==> Pieces()[i] == ByteName(i) && Types()[i] == TYPE_BYTE
    ensures i == 256 ==> Pieces()[i] == SPACE_MARK && Types()[i] == 1
    ensures i == 257 ==> Pieces()[i] == BOS
    ensures i == 258 ==> Pieces()[i] == EOS
    ensures i == 259 ==> Pieces()[i] == LETTER
    ensures i > 256 ==> Types()[i] == TYPE_CONTROL
  {
  }

  /** The entries the examples use keep their own index. */
  lemma IdsAre(v: Vocab)
    requires Example(v)
    ensures SPACE_MARK in v.ids && v.ids[SPACE_MARK] == 256
    ensures LETTER in v.ids && v.ids[LETTER] == 259
  {
    PieceAt(256);
    PieceAt(259);
    var i, j := v.ids[v.pieces[256]], v.ids[v.pieces[259]];
    PieceAt(i);
    PieceAt(j);
  }

  /** Without merges the symbols are the characters. */
  lemma NoMerges(v: Vocab, syms: seq<Bytes>)
    requires Example(v)
    ensures Rescan(v.order, syms) == syms
  {
  }

  lemma CharsOfTwo(a: Bytes, b: Bytes)
    requires FramedChar(a) && FramedChar(b)
    ensures Chars(a + b) == [a, b]
  {
    hide FramedChar;
    FramedCons(a, b);
    FramedCons(b, []);
    assert b + [] == b;
  }

  /** Neither special token occurs in text without '<'. */
  lemma NoControl(v: Vocab, text: Bytes)
    requires Example(v) && Specials(v) && 0x3C !in text
    ensures NextControl(v, text, 0).None?
  {
    hide NextControl, OccursAt;
    PieceAt(257);
    PieceAt(258);
    var next := NextControl(v, text, 0);
    if next.Some? {
      NextControlFirst(v, text, 0, next.value.pos);
      StartsInside(text, v.pieces[next.value.id], next.value.pos);
      assert false;
    }
  }

  lemma StartsInside(text: Bytes, needle: Bytes, at: nat)
    requires OccursAt(text, needle, at) && needle != []
    ensures needle[0] in text
  {
    assert text[at..at + |needle|][0] == text[at];
  }

  /** A single character with an entry: the token of the mark, then its own. */
  lemma TwoTokens(v: Vocab, c: Bytes)
    requires Example(v) && Specials(v) && FramedChar(c) && c != [0x20] && c in v.ids && 0x3C !in c
    ensures IdsFrom(v, c, 0) == [256, v.ids[c]]
  {
    hide FramedChar, Rescan, NextControl;
    NoControl(v, c);
    assert c[0..] == c;
    IdsAre(v);
    SpacedChar(c);
    NotEmpty(c);
    MarkIsChar();
    CharsOfTwo(SPACE_MARK, c);
    NoMerges(v, [SPACE_MARK, c]);
    TwoIds(v, c);
  }

  lemma NotEmpty(c: Bytes)
    requires FramedChar(c)
    ensures c != []
  {
  }

  lemma MarkIsChar()
    ensures FramedChar(SPACE_MARK) && FramedChar(LETTER)
  {
  }

  lemma TwoIds(v: Vocab, c: Bytes)
    requires |v.byteToken| == 256 && SPACE_MARK in v.ids && c in v.ids
    ensures Ids(v, [SPACE_MARK, c]) == [v.ids[SPACE_MARK], v.ids[c]]
  {
    var none: seq<Bytes> := [];
    assert [SPACE_MARK, c][1..] == [c] && [c][1..] == none && Ids(v, none) == [];
    assert Ids(v, [c]) == [v.ids[c]];
  }

  lemma JoinTwo(v: Vocab, a: int, b: int)
    requires |v.types| == |v.pieces| && PieceText(v, a).Ok? && PieceText(v, b).Ok?
    ensures Joined(v, [a, b]) == Ok(PieceText(v, a).value + PieceText(v, b).value)
  {
    hide PieceText;
    var none: seq<int> := [];
    assert [a, b][1..] == [b] && [b][1..] == none && Joined(v, none) == Ok([]);
    assert PieceText(v, b).value + [] == PieceText(v, b).value;
    assert Joined(v, [b]) == Ok(PieceText(v, b).value);
  }

  lemma MarkText(v: Vocab)
    requires Example(v)
    ensures PieceText(v, 256) == Ok([0x20]) && PieceText(v, 259) == Ok([])
  {
    PieceAt(256);
    PieceAt(259);
    UnmarkChar(SPACE_MARK, []);
    NoMarkInNothing();
    assert SPACE_MARK + [] == SPACE_MARK && [0x20] + Unmark([]) == [0x20];
  }

  /** U+2581 comes back as a space. */
  lemma MarkBecomesSpace(v: Vocab)
    requires Example(v) && Specials(v)
    ensures Encoded(v, SPACE_MARK, false) == [256, 256]
    ensures Decoded(v, [256, 256]) == Ok([0x20])
  {
    hide IdsFrom, PieceText, FramedChar;
    IdsAre(v);
    MarkIsChar();
    TwoTokens(v, SPACE_MARK);
    assert [] + IdsFrom(v, SPACE_MARK, 0) == IdsFrom(v, SPACE_MARK, 0);
    MarkText(v);
    JoinTwo(v, 256, 256);
    assert ([0x20] + [0x20])[1..] == [0x20];
  }

  /** A character with a control-typed entry disappears. */
  lemma LetterDisappears(v: Vocab)
    requires Example(v) && Specials(v)
    ensures Encoded(v, LETTER, false) == [256, 259]
    ensures Decoded(v, [256, 259]) == Ok([])
  {
    hide IdsFrom, PieceText, FramedChar;
    IdsAre(v);
    MarkIsChar();
    TwoTokens(v, LETTER);
    assert [] + IdsFrom(v, LETTER, 0) == IdsFrom(v, LETTER, 0);
    MarkText(v);
    JoinTwo(v, 256, 259);
    assert ([0x20] + [])[1..] == [];
  }

  /** So does the spelling of a special token. */
  lemma ControlDisappears(v: Vocab)
    requires Example(v) && Specials(v)
    ensures Encoded(v, BOS, false) == [257]
    ensures Decoded(v, [257]) == Ok([])
  {
    hide NextControl, OccursAt, PlainIds, Joined;
    PieceAt(257);
    BosFound(v);
    EmptyEncodes(v);
    assert BOS[0..0] == [] && BOS[3..] == [];
    assert IdsFrom(v, BOS, 3) == [] by { NothingLeft(v); }
    BosDecodes(v, true);
  }

  lemma BosFound(v: Vocab)
    requires Example(v) && Specials(v)
    ensures NextControl(v, BOS, 0) == Some(Control(0, 257))
  {
    PieceAt(257);
    PieceAt(258);
    assert BOS[0..3] == BOS;
  }

  lemma NothingLeft(v: Vocab)
    requires Example(v) && Specials(v)
    ensures IdsFrom(v, BOS, 3) == []
  {
    hide PlainIds;
    PieceAt(257);
    PieceAt(258);
    EmptyEncodes(v);
    assert BOS[3..] == [];
    assert !OccursAt(BOS, BOS, 3) && !OccursAt(BOS, EOS, 3);
  }

  /** Loads the tables and runs both directions on the three texts: a space, and twice nothing. */
  method Failures() returns (mark: Result<Bytes>, control: Result<Bytes>, letter: Result<Bytes>)
    ensures mark == Ok([0x20]) && control == Ok([]) && letter == Ok([])
  {
    hide Pieces, Types, Encoded, Decoded, Rejected, ByteName;
    TablesFit();
    var loaded := Load(Some(Pieces()), Some(Types()), Some([]), None, Auto, Some(257), Some(258));
    var v := loaded.value;
    LoadedIsExample(v);
    var ids := Encode(v, SPACE_MARK, false);
    MarkBecomesSpace(v);
    mark := Decode(v, ids);
    ids := Encode(v, BOS, false);
    ControlDisappears(v);
    control := Decode(v, ids);
    ids := Encode(v, LETTER, false);
    LetterDisappears(v);
    letter := Decode(v, ids);
  }

  lemma TablesFit()
    ensures Rejected(Some(Pieces()), Some(Types()), Some([]), None, Auto).None?
    ensures forall b: Byte :: ByteName(b) in Pieces()
  {
    hide ByteName, BytePieces, Types;
    forall b: Byte
      ensures ByteName(b) in Pieces()
    {
      PieceAt(b);
    }
    TypesLength();
  }

  lemma TypesLength()
    ensures |Types()| == |Pieces()| == 260
  {
  }

  lemma LoadedIsExample(v: Vocab)
    requires Valid(v) && v.pieces == Pieces() && v.types == Types() && v.bos == 257 && v.eos == 258
    requires v.order.ByRank? && FirstIndex([], v.order.rank)
    ensures Example(v) && Specials(v) && |v.types| == |v.pieces|
  {
    hide Pieces, Types;
    PieceAt(257);
    PieceAt(258);
    TypesLength();
    assert v.order.rank == map[];
  }
}
