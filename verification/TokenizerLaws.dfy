/** What encoding does to a text as a whole: its split at control tokens, its first characters, its first token. */
module TokenizerLaws {
  import opened Common
  import opened Bpe
  import opened Tokenizer
  import opened TokenizerRoundTrip
  import ModelConfig

  // ---------------------------------------------------------------- characters and byte tokens

  /** The 256 byte tokens are spelled with two upper-case hexadecimal digits. */
  lemma ByteNameSpelled(b: Byte)
    ensures ByteName(b) == ModelConfig.Ascii("<0x" + ["0123456789ABCDEF"[b / 16], "0123456789ABCDEF"[b % 16]] + ">")
  {
  }

  /** A hexadecimal digit in either case. */
  function Hex(d: nat, lower: bool): Byte
    requires d < 16
  {
    (if lower then "0123456789abcdef"[d] else "0123456789ABCDEF"[d]) as int % 256
  }

  lemma HexBack(d: nat, lower: bool)
    requires d < 16
    ensures HexValue(Hex(d, lower)) == Some(d)
  {
  }

  lemma BlankIsNoDigit()
    ensures HexValue(0x20).None? && HexValue(0x2B).None? && HexValue(0x2D).None?
  {
  }

  /** Two hexadecimal digits of either case denote their byte, a blank or a plus in front of one is skipped, and a minus
      negates it modulo 256. */
  lemma HexDenotes(high: nat, low: nat, lowerHigh: bool, lowerLow: bool)
    requires high < 16 && low < 16
    ensures var a, b := Hex(high, lowerHigh), Hex(low, lowerLow);
            && StoiHex(a, b) == Ok(16 * high + low)
            && StoiHex(0x20, b) == StoiHex(0x2B, b) == Ok(low)
            && StoiHex(0x2D, b) == Ok(if low == 0 then 0 else 256 - low)
  {
    hide Hex, HexValue;
    HexBack(high, lowerHigh);
    HexBack(low, lowerLow);
    BlankIsNoDigit();
  }

  /** Length announced by each kind of lead byte: ASCII, two, three and four bytes; bytes that start no character, that
      is continuation bytes and those from 0xF8 on, stand alone. */
  lemma LeadBytes(c: Byte)
    ensures Utf8Len(c) ==
            if c < 0xC0 then 1 else if c < 0xE0 then 2 else if c < 0xF0 then 3 else if c < 0xF8 then 4 else 1
  {
  }

  /** Cutting loses nothing, malformed bytes included: each piece has the length its first byte announces, except that
      the end of the text may cut the last one short. */
  lemma {:induction false} CharsAre(s: Bytes)
    ensures Concat(Chars(s)) == s
    ensures forall i | 0 <= i < |Chars(s)| ::
              Chars(s)[i] != [] && |Chars(s)[i]| <= Utf8Len(Chars(s)[i][0])
    ensures forall i | 0 <= i < |Chars(s)| - 1 :: |Chars(s)[i]| == Utf8Len(Chars(s)[i][0])
    decreases |s|
  {
    if s != [] {
      var n := if Utf8Len(s[0]) <= |s| then Utf8Len(s[0]) else |s|;
      CharsAre(s[n..]);
      assert Chars(s)[1..] == Chars(s[n..]);
      assert s == s[..n] + s[n..];
      if n == |s| { assert Chars(s[n..]) == []; }
    }
  }

  // ---------------------------------------------------------------- the first token

  /** `bos` leads the tokens when asked for, and nothing else changes. */
  lemma BosLeads(v: Vocab, text: Bytes)
    requires |v.byteToken| == 256 && Specials(v)
    ensures var plain, led := Encoded(v, text, false), Encoded(v, text, true);
            |led| == |plain| + 1 && led[0] == v.bos && led[1..] == plain
  {
  }

  // ---------------------------------------------------------------- the split on control tokens

  /** The text that segments and control tokens spell between them. */
  function Woven(v: Vocab, segments: seq<Bytes>, controls: seq<int>): Bytes
    requires |segments| == |controls| + 1 && forall i | 0 <= i < |controls| :: 0 <= controls[i] < |v.pieces|
  {
    if controls == [] then segments[0]
    else segments[0] + v.pieces[controls[0]] + Woven(v, segments[1..], controls[1..])
  }

  /** Each segment encoded by itself, with the control ids in between. */
  function WovenIds(v: Vocab, segments: seq<Bytes>, controls: seq<int>): seq<int>
    requires |segments| == |controls| + 1 && |v.byteToken| == 256
  {
    if controls == [] then PlainIds(v, segments[0])
    else PlainIds(v, segments[0]) + [controls[0]] + WovenIds(v, segments[1..], controls[1..])
  }

  /** A control token is spelled at `at`. */
  predicate ControlAt(v: Vocab, text: Bytes, at: nat)
    requires Specials(v)
  {
    OccursAt(text, v.pieces[v.bos], at) || OccursAt(text, v.pieces[v.eos], at)
  }

  /** `text` is cut at the first spelling of a control token, `bos` where both start together, and so on behind it; the
      last segment holds none. */
  ghost predicate CutAt(v: Vocab, text: Bytes, segments: seq<Bytes>, controls: seq<int>)
    requires Specials(v)
    decreases |controls|
  {
    && |segments| == |controls| + 1
    && if controls == [] then text == segments[0] && forall at: nat :: !ControlAt(v, text, at)
       else
         var n, c := |segments[0]|, controls[0];
         && c == (if OccursAt(text, v.pieces[v.bos], n) then v.bos else v.eos)
         && n + |v.pieces[c]| <= |text| && text[..n] == segments[0] && OccursAt(text, v.pieces[c], n)
         && (forall at: nat | at < n :: !ControlAt(v, text, at))
         && CutAt(v, text[n + |v.pieces[c]|..], segments[1..], controls[1..])
  }

  lemma OccursInSuffix(text: Bytes, needle: Bytes, start: nat, at: nat)
    requires start <= |text|
    ensures OccursAt(text[start..], needle, at) <==> OccursAt(text, needle, start + at)
  {
    if at + |needle| <= |text| - start {
      assert text[start..][at..at + |needle|] == text[start + at..start + at + |needle|];
    }
  }

  lemma ControlInSuffix(v: Vocab, text: Bytes, start: nat, at: nat)
    requires Specials(v) && start <= |text|
    ensures ControlAt(v, text[start..], at) <==> ControlAt(v, text, start + at)
  {
    hide OccursAt;
    OccursInSuffix(text, v.pieces[v.bos], start, at);
    OccursInSuffix(text, v.pieces[v.eos], start, at);
  }

  /** `bos` is chosen exactly where its spelling starts. */
  lemma BosWins(v: Vocab, text: Bytes, start: nat)
    requires Specials(v) && start <= |text| && NextControl(v, text, start).Some?
    ensures var c := NextControl(v, text, start).value;
            && start <= c.pos && c.pos + |v.pieces[c.id]| <= |text|
            && c.id == if OccursAt(text, v.pieces[v.bos], c.pos) then v.bos else v.eos
  {
    hide OccursAt, Find;
    var c := NextControl(v, text, start).value;
    FindsFirst(text, v.pieces[v.bos], start, c.pos);
    FindsFirst(text, v.pieces[v.eos], start, c.pos);
  }

  /** What the next control token says of the suffix that starts at `start`. */
  lemma NextInSuffix(v: Vocab, text: Bytes, start: nat)
    requires Specials(v) && start <= |text|
    ensures NextControl(v, text, start).None? ==> forall at: nat :: !ControlAt(v, text[start..], at)
    ensures NextControl(v, text, start).Some? ==>
              var c := NextControl(v, text, start).value;
              && start <= c.pos && c.pos + |v.pieces[c.id]| <= |text| && v.pieces[c.id] != []
              && c.id == (if OccursAt(text[start..], v.pieces[v.bos], c.pos - start) then v.bos else v.eos)
              && OccursAt(text[start..], v.pieces[c.id], c.pos - start)
              && forall at: nat | at < c.pos - start :: !ControlAt(v, text[start..], at)
  {
    hide OccursAt, NextControl;
    var next := NextControl(v, text, start);
    forall at: nat
      ensures next.None? ==> !ControlAt(v, text[start..], at)
      ensures next.Some? && at < next.value.pos - start ==> !ControlAt(v, text[start..], at)
    {
      NextControlFirst(v, text, start, start + at);
      ControlInSuffix(v, text, start, at);
    }
    if next.Some? {
      BosWins(v, text, start);
      NextControlFirst(v, text, start, start);
      OccursInSuffix(text, v.pieces[v.bos], start, next.value.pos - start);
      OccursInSuffix(text, v.pieces[next.value.id], start, next.value.pos - start);
    }
  }

  lemma {:induction false} SplitFrom(v: Vocab, text: Bytes, start: nat)
    returns (segments: seq<Bytes>, controls: seq<int>)
    requires |v.byteToken| == 256 && Specials(v) && start <= |text|
    ensures CutAt(v, text[start..], segments, controls) && |segments| == |controls| + 1
    ensures IdsFrom(v, text, start) == WovenIds(v, segments, controls)
    decreases |text| - start
  {
    hide PlainIds, NextControl, OccursAt, ControlAt;
    NextInSuffix(v, text, start);
    match NextControl(v, text, start)
    case None => segments, controls := [text[start..]], [];
    case Some(c) =>
      var after := c.pos + |v.pieces[c.id]|;
      var segs, ctrls := SplitFrom(v, text, after);
      segments, controls := [text[start..c.pos]] + segs, [c.id] + ctrls;
      assert segments[1..] == segs && controls[1..] == ctrls;
      assert text[start..][after - start..] == text[after..];
      assert text[start..][..c.pos - start] == text[start..c.pos];
  }

  lemma WovenStep(v: Vocab, segments: seq<Bytes>, controls: seq<int>)
    requires Specials(v) && |segments| == |controls| + 1
    requires forall i | 0 <= i < |controls| :: controls[i] == v.bos || controls[i] == v.eos
    ensures Woven(v, segments, controls) ==
            if controls == [] then segments[0]
            else segments[0] + v.pieces[controls[0]] + Woven(v, segments[1..], controls[1..])
  {
  }

  /** One cut: the first segment, the spelling behind it, and the rest, which is cut in turn. */
  lemma CutStep(v: Vocab, text: Bytes, segments: seq<Bytes>, controls: seq<int>)
    requires Specials(v) && CutAt(v, text, segments, controls) && controls != []
    ensures |segments| == |controls| + 1 && (controls[0] == v.bos || controls[0] == v.eos)
    ensures var after := |segments[0]| + |v.pieces[controls[0]]|;
            && after <= |text| && text == segments[0] + v.pieces[controls[0]] + text[after..]
            && CutAt(v, text[after..], segments[1..], controls[1..])
  {
    hide ControlAt, OccursAt;
    CutText(text, |segments[0]|, v.pieces[controls[0]]);
  }

  lemma CutText(text: Bytes, n: nat, needle: Bytes)
    ensures OccursAt(text, needle, n) ==>
              n + |needle| <= |text| && text == text[..n] + needle + text[n + |needle|..]
  {
  }

  lemma {:induction false} CutWeaves(v: Vocab, text: Bytes, segments: seq<Bytes>, controls: seq<int>)
    requires Specials(v) && CutAt(v, text, segments, controls)
    ensures forall i | 0 <= i < |controls| :: controls[i] == v.bos || controls[i] == v.eos
    ensures |segments| == |controls| + 1 && Woven(v, segments, controls) == text
    decreases |controls|
  {
    hide CutAt, Woven;
    if controls == [] {
      NoCut(v, text, segments);
    } else {
      CutStep(v, text, segments, controls);
      var after := |segments[0]| + |v.pieces[controls[0]]|;
      CutWeaves(v, text[after..], segments[1..], controls[1..]);
      assert controls == [controls[0]] + controls[1..];
      WovenStep(v, segments, controls);
    }
  }

  lemma NoCut(v: Vocab, text: Bytes, segments: seq<Bytes>)
    requires Specials(v) && CutAt(v, text, segments, [])
    ensures |segments| == 1 && Woven(v, segments, []) == text
  {
  }

  /** Encoding, as a whole: the text is cut at the first control spelling, and again behind it until none is left; its
      tokens are those of the segments, each encoded by itself, with the control ids in between. */
  lemma EncodedSplits(v: Vocab, text: Bytes) returns (segments: seq<Bytes>, controls: seq<int>)
    requires |v.byteToken| == 256 && Specials(v)
    ensures CutAt(v, text, segments, controls) && |segments| == |controls| + 1
    ensures forall i | 0 <= i < |controls| :: controls[i] == v.bos || controls[i] == v.eos
    ensures Woven(v, segments, controls) == text
    ensures Encoded(v, text, false) == WovenIds(v, segments, controls)
  {
    hide CutAt, IdsFrom, WovenIds, Woven;
    segments, controls := SplitFrom(v, text, 0);
    assert text[0..] == text;
    CutWeaves(v, text, segments, controls);
  }
}
