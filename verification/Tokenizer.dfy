/** The tokenizer: its tables, the split on control tokens, and decoding. */
module Tokenizer {
  import opened Common
  import opened Bpe

  const TYPE_CONTROL := 3
  const TYPE_BYTE := 6

  datatype Algorithm = Auto | Merges | Scores

  /** `order` holds the merge ranks or the scores by spelling, whichever the algorithm uses. */
  datatype Vocab = Vocab(
    pieces: seq<Bytes>, types: seq<int>, ids: map<Bytes, nat>, order: Order, byteToken: seq<nat>, bos: int, eos: int)

  // ---------------------------------------------------------------- tables

  function HexDigit(d: nat): Byte
    requires d < 16
  {
    if d < 10 then 0x30 + d else 0x41 + (d - 10)
  }

  /** The spelling `<0xXX>` of a byte token. */
  function ByteName(b: Byte): Bytes {
    [0x3C, 0x30, 0x78, HexDigit(b / 16), HexDigit(b % 16), 0x3E]
  }

  /** `m` sends every entry of `keys` to its first index. */
  ghost predicate FirstIndex(keys: seq<Bytes>, m: map<Bytes, nat>) {
    && (forall k | k in m :: m[k] < |keys| && keys[m[k]] == k)
    && (forall i: nat | i < |keys| :: keys[i] in m && m[keys[i]] <= i)
  }

  /** What the constructor establishes. */
  ghost predicate Valid(v: Vocab) {
    && |v.types| == |v.pieces|
    && FirstIndex(v.pieces, v.ids)
    && |v.byteToken| == 256
    && (forall b: Byte :: ByteName(b) in v.ids && v.byteToken[b] == v.ids[ByteName(b)])
    && (v.order.ByScore? ==> v.order.score.Keys == v.ids.Keys)
  }

  /** The `emplace` loops: a spelling that repeats keeps its first index. */
  method IndexFirst(keys: seq<Bytes>) returns (m: map<Bytes, nat>)
    ensures FirstIndex(keys, m)
  {
    m := map[];
    for i := 0 to |keys|
      invariant forall k | k in m :: m[k] < i && keys[m[k]] == k
      invariant forall j: nat | j < i :: keys[j] in m && m[keys[j]] <= j
    {
      if keys[i] !in m {
        m := m[keys[i] := i];
      }
    }
  }

  /** Why the constructor throws, in the order of its checks up to the byte tokens. */
  function Rejected(tokens: Option<seq<Bytes>>, types: Option<seq<int>>, merges: Option<seq<Bytes>>,
                    scores: Option<seq<real>>, algorithm: Algorithm): Option<string> {
    var chosen := if algorithm.Auto? then (if merges.Some? then Merges else Scores) else algorithm;
    if tokens.None? || tokens.value == [] then Some("no vocabulary")
    else if chosen.Merges? && merges.None? then Some("no merges")
    else if chosen.Scores? && scores.None? then Some("no scores")
    else if types.Some? && |types.value| != |tokens.value| then Some("token_type length mismatch")
    else if scores.Some? && |scores.value| != |tokens.value| then Some("scores length mismatch")
    else None
  }

  method Load(tokens: Option<seq<Bytes>>, types: Option<seq<int>>, merges: Option<seq<Bytes>>,
              scores: Option<seq<real>>, algorithm: Algorithm, bos: Option<int>, eos: Option<int>)
    returns (r: Result<Vocab>)
    ensures r.Ok? <==>
            && Rejected(tokens, types, merges, scores, algorithm).None?
            && forall b: Byte :: ByteName(b) in tokens.value
    ensures r.Ok? ==> Valid(r.value) && r.value.pieces == tokens.value
    ensures r.Ok? && r.value.order.ByRank? ==> merges.Some? && FirstIndex(merges.value, r.value.order.rank)
    ensures r.Ok? && r.value.order.ByScore? ==>
              scores.Some? && forall s | s in r.value.ids :: r.value.order.score[s] == scores.value[r.value.ids[s]]
    ensures r.Ok? ==> (r.value.order.ByRank? <==> algorithm.Merges? || (algorithm.Auto? && merges.Some?))
    ensures r.Ok? ==> r.value.types == if types.Some? then types.value else seq(|tokens.value|, _ => 1)
    ensures r.Ok? ==> r.value.bos == if bos.Some? then bos.value else 1
    ensures r.Ok? ==> r.value.eos == if eos.Some? then eos.value else 2
  {
    var rejected := Rejected(tokens, types, merges, scores, algorithm);
    if rejected.Some? {
      return Err(rejected.value);
    }
    var pieces := tokens.value;
    var ids := IndexFirst(pieces);
    var order: Order;
    if algorithm.Merges? || (algorithm.Auto? && merges.Some?) {
      var rank := IndexFirst(merges.value);
      order := ByRank(rank);
    } else {
      order := ByScore(map s | s in ids :: scores.value[ids[s]]);
    }
    var byteToken: seq<nat> := [];
    for b := 0 to 256
      invariant |byteToken| == b
      invariant forall c: Byte | c < b :: ByteName(c) in ids && byteToken[c] == ids[ByteName(c)]
    {
      if ByteName(b) !in ids {
        assert ByteName(b) !in pieces;
        return Err("missing byte token");
      }
      byteToken := byteToken + [ids[ByteName(b)]];
    }
    var kinds := if types.Some? then types.value else seq(|pieces|, _ => 1);
    r := Ok(Vocab(pieces, kinds, ids, order, byteToken,
                  if bos.Some? then bos.value else 1, if eos.Some? then eos.value else 2));
  }

  // ---------------------------------------------------------------- encoding plain text

  /** Spaces become U+2581. */
  function Spaced(text: Bytes): Bytes {
    if text == [] then []
    else (if text[0] == 0x20 then SPACE_MARK else [text[0]]) + Spaced(text[1..])
  }

  /** SentencePiece normalization: the dummy prefix, then the text with its spaces marked. */
  function Normalized(text: Bytes): Bytes {
    SPACE_MARK + Spaced(text)
  }

  /** The tokens of one symbol: its entry, or one byte token per byte. */
  function SymbolIds(v: Vocab, s: Bytes): seq<int>
    requires |v.byteToken| == 256
  {
    if s in v.ids then [v.ids[s]] else seq(|s|, i requires 0 <= i < |s| => v.byteToken[s[i]])
  }

  function Ids(v: Vocab, syms: seq<Bytes>): seq<int>
    requires |v.byteToken| == 256
  {
    if syms == [] then [] else SymbolIds(v, syms[0]) + Ids(v, syms[1..])
  }

  /** The final symbols of a text by the definition of BPE. */
  function Symbols(v: Vocab, text: Bytes): seq<Bytes> {
    Rescan(v.order, Chars(Normalized(text)))
  }

  function PlainIds(v: Vocab, text: Bytes): seq<int>
    requires |v.byteToken| == 256
  {
    if text == [] then [] else Ids(v, Symbols(v, text))
  }

  method Normalize(text: Bytes) returns (norm: Bytes)
    ensures norm == Normalized(text)
  {
    norm := SPACE_MARK;
    for i := 0 to |text|
      invariant norm + Spaced(text[i..]) == Normalized(text)
    {
      ghost var before := norm;
      norm := norm + if text[i] == 0x20 then SPACE_MARK else [text[i]];
      assert text[i..][1..] == text[i + 1..];
      assert norm + Spaced(text[i + 1..]) == before + Spaced(text[i..]);
    }
    assert text[|text|..] == [];
  }

  /** The tokens of the definition, which are those of the symbols any run of merges by the tables ends with. */
  method EncodePlain(v: Vocab, text: Bytes) returns (out: seq<int>)
    requires Valid(v)
    ensures out == PlainIds(v, text)
    ensures text != [] ==> exists merges, end ::
              MergesTo(v.order, Chars(Normalized(text)), merges, end) && out == Ids(v, end)
  {
    hide Rescan, ListOk, Chars, Spaced, ByteName, FirstIndex, MergesTo;
    if text == [] {
      return [];
    }
    var norm := Normalize(text);
    var sym0, live0 := InitSymbols(norm);
    var sym, live, _, merges := MergeLoop(v.order, norm, sym0, live0);
    out := EmitIds(v, norm, sym, live);
  }

  /** Walks the list from its head and emits the tokens of every live symbol. */
  method EmitIds(v: Vocab, norm: Bytes, sym: seq<Sym>, ghost live: seq<nat>) returns (out: seq<int>)
    requires |v.byteToken| == 256
    requires ListOk(norm, sym, live)
    ensures out == Ids(v, Texts(norm, sym, live))
  {
    hide SymbolIds, Text;
    out := [];
    ghost var texts := Texts(norm, sym, live);
    ghost var k := 0;
    var i: int := 0;
    assert NodeOk(norm, sym, live, 0);
    while i >= 0
      invariant 0 <= k <= |live|
      invariant i == if k < |live| then live[k] else -1
      invariant out + Ids(v, texts[k..]) == Ids(v, texts)
      decreases |live| - k
    {
      assert NodeOk(norm, sym, live, k);
      var s := Text(norm, sym[i]);
      ghost var rest := texts[k..];
      assert rest[0] == s && rest[1..] == texts[k + 1..];
      var tokens := EmitSymbol(v, s);
      assert out + (tokens + Ids(v, texts[k + 1..])) == (out + tokens) + Ids(v, texts[k + 1..]);
      out := out + tokens;
      i := sym[i].next;
      k := k + 1;
    }
    assert texts[k..] == [];
  }

  method EmitSymbol(v: Vocab, s: Bytes) returns (tokens: seq<int>)
    requires |v.byteToken| == 256
    ensures tokens == SymbolIds(v, s)
  {
    if s in v.ids {
      return [v.ids[s]];
    }
    tokens := [];
    for j := 0 to |s|
      invariant tokens == seq(j, i requires 0 <= i < j => v.byteToken[s[i]])
    {
      tokens := tokens + [v.byteToken[s[j]]];
    }
  }

  // ---------------------------------------------------------------- control tokens

  /** `std::string::find`: the first occurrence at or after `start`. */
  function Find(text: Bytes, needle: Bytes, start: nat): (pos: Option<nat>)
    requires start <= |text|
    ensures pos.Some? ==> start <= pos.value && pos.value + |needle| <= |text|
    decreases |text| - start
  {
    if OccursAt(text, needle, start) then Some(start)
    else if start == |text| then None
    else Find(text, needle, start + 1)
  }

  /** `Find` returns the first occurrence, and none only if there is none. */
  lemma {:induction false} FindsFirst(text: Bytes, needle: Bytes, start: nat, at: nat)
    requires start <= at && start <= |text|
    ensures var pos := Find(text, needle, start);
            && (pos.Some? ==> OccursAt(text, needle, pos.value))
            && (OccursAt(text, needle, at) ==> pos.Some? && pos.value <= at)
    decreases |text| - start
  {
    if !OccursAt(text, needle, start) && start < |text| {
      FindsFirst(text, needle, start + 1, if start < at then at else at + 1);
    }
  }

  /** The special ids name entries with a spelling; without that the split would not advance. */
  predicate Specials(v: Vocab) {
    && 0 <= v.bos < |v.pieces| && v.pieces[v.bos] != []
    && 0 <= v.eos < |v.pieces| && v.pieces[v.eos] != []
  }

  datatype Control = Control(pos: nat, id: int)

  /** The next control-token spelling; `bos` wins where both start together. */
  function NextControl(v: Vocab, text: Bytes, start: nat): (next: Option<Control>)
    requires Specials(v) && start <= |text|
    ensures next.Some? ==> next.value.id == v.bos || next.value.id == v.eos
    ensures next.Some? ==> start <= next.value.pos && next.value.pos + |v.pieces[next.value.id]| <= |text|
  {
    var b, e := Find(text, v.pieces[v.bos], start), Find(text, v.pieces[v.eos], start);
    if b.Some? && (e.None? || b.value <= e.value) then Some(Control(b.value, v.bos))
    else if e.Some? then Some(Control(e.value, v.eos))
    else None
  }

  /** A control spelling starts at the position found and none starts earlier. */
  lemma NextControlFirst(v: Vocab, text: Bytes, start: nat, at: nat)
    requires Specials(v) && start <= |text| && start <= at
    ensures var next := NextControl(v, text, start);
            && (next.Some? ==> OccursAt(text, v.pieces[next.value.id], next.value.pos))
            && (OccursAt(text, v.pieces[v.bos], at) || OccursAt(text, v.pieces[v.eos], at) ==>
                  next.Some? && next.value.pos <= at)
  {
    hide Find, OccursAt;
    FindsFirst(text, v.pieces[v.bos], start, at);
    FindsFirst(text, v.pieces[v.eos], start, at);
  }

  function IdsFrom(v: Vocab, text: Bytes, start: nat): seq<int>
    requires |v.byteToken| == 256 && Specials(v) && start <= |text|
    decreases |text| - start
  {
    match NextControl(v, text, start)
    case None => PlainIds(v, text[start..])
    case Some(c) =>
      PlainIds(v, text[start..c.pos]) + [c.id] + IdsFrom(v, text, c.pos + |v.pieces[c.id]|)
  }

  function Encoded(v: Vocab, text: Bytes, addBos: bool): seq<int>
    requires |v.byteToken| == 256 && Specials(v)
  {
    (if addBos then [v.bos] else []) + IdsFrom(v, text, 0)
  }

  method NextControlToken(v: Vocab, text: Bytes, start: nat) returns (best: Option<Control>)
    requires Specials(v) && start <= |text|
    ensures best == NextControl(v, text, start)
  {
    best := None;
    var specials := [v.bos, v.eos];
    for k := 0 to 2
      invariant best == if k == 0 then None
                        else if k == 1 then
                          (match Find(text, v.pieces[v.bos], start)
                           case None => None
                           case Some(p) => Some(Control(p, v.bos)))
                        else NextControl(v, text, start)
    {
      var pos := Find(text, v.pieces[specials[k]], start);
      if pos.Some? && (best.None? || pos.value < best.value.pos) {
        best := Some(Control(pos.value, specials[k]));
      }
    }
  }

  method Encode(v: Vocab, text: Bytes, addBos: bool) returns (out: seq<int>)
    requires Valid(v) && Specials(v)
    ensures out == Encoded(v, text, addBos)
  {
    hide PlainIds, FirstIndex, ByteName, NextControl;
    out := if addBos then [v.bos] else [];
    var start := 0;
    while start <= |text|
      invariant 0 <= start <= |text|
      invariant out + IdsFrom(v, text, start) == Encoded(v, text, addBos)
      decreases |text| - start
    {
      var best := NextControlToken(v, text, start);
      if best.None? {
        var tail := EncodePlain(v, text[start..]);
        out := out + tail;
        break;
      }
      var c := best.value;
      var part := EncodePlain(v, text[start..c.pos]);
      var next := c.pos + |v.pieces[c.id]|;
      AppendThree(out, part, [c.id], IdsFrom(v, text, next));
      out := out + part;
      out := out + [c.id];
      start := next;
    }
  }

  lemma AppendThree(a: seq<int>, b: seq<int>, c: seq<int>, d: seq<int>)
    ensures a + (b + c + d) == a + b + c + d
  {
  }

  // ---------------------------------------------------------------- decoding

  /** Every U+2581 becomes a space. */
  function Unmark(p: Bytes): Bytes {
    if p == [] then []
    else if OccursAt(p, SPACE_MARK, 0) then [0x20] + Unmark(p[3..])
    else [p[0]] + Unmark(p[1..])
  }

  function HexValue(c: Byte): Option<nat> {
    if 0x30 <= c <= 0x39 then Some(c - 0x30)
    else if 0x41 <= c <= 0x46 then Some(c - 0x41 + 10)
    else if 0x61 <= c <= 0x66 then Some(c - 0x61 + 10)
    else None
  }

  /** `static_cast<char>(std::stoi(two characters, 16))`: leading white space or a sign is skipped, conversion
      stops at the first other character, and no digit at all throws. */
  function StoiHex(a: Byte, b: Byte): Result<Byte> {
    var lone := HexValue(b);
    match HexValue(a)
    case Some(high) => Ok(if lone.Some? then 16 * high + lone.value else high)
    case None =>
      if lone.None? then Err("stoi")
      else if a in {0x20, 0x09, 0x0A, 0x0B, 0x0C, 0x0D, 0x2B} then Ok(lone.value)
      else if a == 0x2D then Ok((256 - lone.value) % 256)
      else Err("stoi")
  }

  function PieceText(v: Vocab, id: int): Result<Bytes>
    requires |v.types| == |v.pieces|
  {
    if !(0 <= id < |v.pieces|) then Err("token id out of range")
    else if v.types[id] == TYPE_CONTROL then Ok([])
    else if v.types[id] == TYPE_BYTE && |v.pieces[id]| == 6 then
      match StoiHex(v.pieces[id][3], v.pieces[id][4]) case Err(e) => Err(e) case Ok(b) => Ok([b])
    else Ok(Unmark(v.pieces[id]))
  }

  lemma UnmarkStep(p: Bytes, i: nat)
    requires i <= |p|
    ensures p[0..] == p && p[|p|..] == [] && Unmark([]) == []
    ensures i < |p| && Substr(p, i, 3) == SPACE_MARK ==> i + 3 <= |p| && Unmark(p[i..]) == [0x20] + Unmark(p[i + 3..])
    ensures i < |p| && Substr(p, i, 3) != SPACE_MARK ==> Unmark(p[i..]) == [p[i]] + Unmark(p[i + 1..])
  {
    var rest := p[i..];
    if i < |p| {
      assert rest[1..] == p[i + 1..];
      if i + 3 <= |p| {
        assert rest[0..3] == p[i..i + 3] && rest[3..] == p[i + 3..];
      }
    }
  }

  method RestoreSpaces(p: Bytes) returns (s: Bytes)
    ensures s == Unmark(p)
  {
    hide Unmark, Substr;
    s := [];
    var i := 0;
    UnmarkStep(p, 0);
    while i < |p|
      invariant 0 <= i <= |p|
      invariant s + Unmark(p[i..]) == Unmark(p)
    {
      ghost var before := s;
      UnmarkStep(p, i);
      if Substr(p, i, |SPACE_MARK|) == SPACE_MARK {
        s := s + [0x20];
        i := i + |SPACE_MARK|;
        assert s + Unmark(p[i..]) == before + ([0x20] + Unmark(p[i..]));
      } else {
        s := s + [p[i]];
        i := i + 1;
        assert s + Unmark(p[i..]) == before + ([p[i - 1]] + Unmark(p[i..]));
      }
    }
  }

  method Piece(v: Vocab, id: int) returns (r: Result<Bytes>)
    requires |v.types| == |v.pieces|
    ensures r == PieceText(v, id)
  {
    if id < 0 || id >= |v.pieces| {
      return Err("token id out of range");
    }
    if v.types[id] == TYPE_CONTROL {
      return Ok([]);
    }
    var p := v.pieces[id];
    if v.types[id] == TYPE_BYTE && |p| == 6 {
      match StoiHex(p[3], p[4]) {
        case Err(e) => return Err(e);
        case Ok(b) => return Ok([b]);
      }
    }
    var s := RestoreSpaces(p);
    r := Ok(s);
  }

  /** The pieces of `ids` in a row. */
  function Joined(v: Vocab, ids: seq<int>): Result<Bytes>
    requires |v.types| == |v.pieces|
  {
    if ids == [] then Ok([])
    else match PieceText(v, ids[0])
      case Err(e) => Err(e)
      case Ok(p) => match Joined(v, ids[1..]) case Err(e) => Err(e) case Ok(rest) => Ok(p + rest)
  }

  /** Undoes the dummy prefix of the first segment. */
  function DropSpace(s: Bytes): Bytes {
    if s != [] && s[0] == 0x20 then s[1..] else s
  }

  function Decoded(v: Vocab, ids: seq<int>): Result<Bytes>
    requires |v.types| == |v.pieces|
  {
    match Joined(v, ids) case Err(e) => Err(e) case Ok(s) => Ok(DropSpace(s))
  }

  method Decode(v: Vocab, ids: seq<int>) returns (r: Result<Bytes>)
    requires |v.types| == |v.pieces|
    ensures r == Decoded(v, ids)
  {
    var s: Bytes := [];
    assert ids[0..] == ids;
    match Joined(v, ids) { case Err(_) => case Ok(all) => assert s + all == all; }
    for k := 0 to |ids|
      invariant match Joined(v, ids[k..])
                case Err(e) => Joined(v, ids) == Err(e)
                case Ok(rest) => Joined(v, ids) == Ok(s + rest)
    {
      ghost var before, rest := s, ids[k..];
      assert rest[0] == ids[k] && rest[1..] == ids[k + 1..];
      var p := Piece(v, ids[k]);
      if p.Err? {
        return Err(p.reason);
      }
      s := s + p.value;
      match Joined(v, ids[k + 1..]) {
        case Err(_) =>
        case Ok(tail) => assert before + (p.value + tail) == s + tail;
      }
    }
    assert ids[|ids|..] == [] && s + [] == s;
    r := Ok(DropSpace(s));
  }
}
