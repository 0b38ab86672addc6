/** Byte-pair merging: the queue-driven loop of `encode_plain` and the definition it must reproduce. */
module Bpe {
  import opened Common

  /** U+2581, which stands for a space inside the vocabulary. */
  const SPACE_MARK: Bytes := [0xE2, 0x96, 0x81]

  /** Length of the UTF-8 sequence announced by a lead byte; a malformed lead byte stands alone. */
  function Utf8Len(c: Byte): (n: nat)
    ensures 1 <= n <= 4
  {
    if c < 0x80 then 1
    else if c / 32 == 0x6 then 2
    else if c / 16 == 0xE then 3
    else if c / 8 == 0x1E then 4
    else 1
  }

  /** The initial symbols: `s` cut at its lead bytes. */
  function Chars(s: Bytes): seq<Bytes> {
    if s == [] then []
    else
      var n := if Utf8Len(s[0]) <= |s| then Utf8Len(s[0]) else |s|;
      [s[..n]] + Chars(s[n..])
  }

  /** The symbol that starts at `i`, and where the next one starts. */
  function CharLen(norm: Bytes, i: nat): (n: nat)
    requires i < |norm|
    ensures 0 < n && i + n <= |norm|
  {
    if Utf8Len(norm[i]) <= |norm| - i then Utf8Len(norm[i]) else |norm| - i
  }

  lemma CharsStep(norm: Bytes, i: nat)
    requires i < |norm|
    ensures var n := CharLen(norm, i); Chars(norm[i..]) == [norm[i..i + n]] + Chars(norm[i + n..])
  {
    var n, rest := CharLen(norm, i), norm[i..];
    assert rest[..n] == norm[i..i + n] && rest[n..] == norm[i + n..];
  }

  lemma CharsEnds(norm: Bytes)
    ensures norm[0..] == norm && Chars(norm[|norm|..]) == []
  {
  }

  // ---------------------------------------------------------------- merge order

  /** Which neighbours merge and in which order: by merge rank, or by the score of the merged entry.
      Scores are the non-NaN doubles of the file, an ordered set that embeds in the reals. */
  datatype Order = ByRank(rank: map<Bytes, nat>) | ByScore(score: map<Bytes, real>)

  /** Lower keys merge first. */
  function Key(o: Order, l: Bytes, r: Bytes): Option<real> {
    match o
    case ByRank(rank) =>
      var spelled := l + [0x20] + r;
      if spelled in rank then Some(rank[spelled] as real) else None
    case ByScore(score) =>
      if l + r in score then Some(-score[l + r]) else None
  }

  // ---------------------------------------------------------------- the definition: rescan and merge

  /** The key of the pair that starts at symbol `k`; none where no pair starts. */
  function PairKey(o: Order, syms: seq<Bytes>, k: nat): Option<real> {
    if k + 1 < |syms| then Key(o, syms[k], syms[k + 1]) else None
  }

  /** Pair `k` merges no later than pair `j`. */
  ghost predicate NotAfter(o: Order, syms: seq<Bytes>, k: nat, j: nat)
    requires PairKey(o, syms, k).Some?
  {
    match PairKey(o, syms, j)
    case None => true
    case Some(other) =>
      var mine := PairKey(o, syms, k).value;
      mine < other || (mine == other && k <= j)
  }

  /** Pair `k` is mergeable, no other pair has a smaller key and none with an equal key is further left. */
  ghost predicate IsBest(o: Order, syms: seq<Bytes>, k: nat) {
    PairKey(o, syms, k).Some? && forall j: nat :: NotAfter(o, syms, k, j)
  }

  /** One scan, preferring the left pair on a tie. */
  function FindBest(o: Order, syms: seq<Bytes>, i: nat): (best: Option<nat>)
    requires i <= |syms|
    ensures best.Some? ==> i <= best.value && PairKey(o, syms, best.value).Some?
    decreases |syms| - i
  {
    if i + 1 >= |syms| then None
    else
      var rest := FindBest(o, syms, i + 1);
      var here := PairKey(o, syms, i);
      if here.None? then rest
      else if rest.Some? && PairKey(o, syms, rest.value).value < here.value then rest
      else Some(i)
  }

  lemma {:induction false} FindBestIsBest(o: Order, syms: seq<Bytes>, i: nat, j: nat)
    requires i <= |syms| && i <= j
    ensures var best := FindBest(o, syms, i);
            match best case None => PairKey(o, syms, j).None? case Some(k) => NotAfter(o, syms, k, j)
    decreases |syms| - i
  {
    hide Key;
    if i + 1 < |syms| {
      FindBestIsBest(o, syms, i + 1, if i < j then j else j + 1);
    }
  }

  function MergeAt(syms: seq<Bytes>, k: nat): (r: seq<Bytes>)
    requires k + 1 < |syms|
    ensures |r| == |syms| - 1
    ensures forall j | 0 <= j < |r| ::
              r[j] == if j < k then syms[j] else if j == k then syms[k] + syms[k + 1] else syms[j + 1]
  {
    syms[..k] + [syms[k] + syms[k + 1]] + syms[k + 2..]
  }

  /** The definition of BPE: while some pair is mergeable, apply the best one, leftmost on a tie. */
  function Rescan(o: Order, syms: seq<Bytes>): seq<Bytes>
    decreases |syms|
  {
    match FindBest(o, syms, 0)
    case None => syms
    case Some(k) => Rescan(o, MergeAt(syms, k))
  }

  lemma RescanMerges(o: Order, syms: seq<Bytes>, k: nat)
    requires IsBest(o, syms, k)
    ensures Rescan(o, syms) == Rescan(o, MergeAt(syms, k))
  {
    FindBestIsBest(o, syms, 0, k);
    var best := FindBest(o, syms, 0);
    assert NotAfter(o, syms, k, best.value);
  }

  // ---------------------------------------------------------------- the same rule over the tables themselves

  /** The symbols at `k` and `k + 1` may merge: the merge list has their line, or the vocabulary their
      concatenation. */
  ghost predicate Mergeable(o: Order, syms: seq<Bytes>, k: nat) {
    && k + 1 < |syms|
    && match o
       case ByRank(rank) => syms[k] + [0x20] + syms[k + 1] in rank
       case ByScore(score) => syms[k] + syms[k + 1] in score
  }

  /** Pair `k` goes before pair `j`: it is listed earlier or scores higher, and where that leaves a tie it is not
      further right. */
  ghost predicate GoesFirst(o: Order, syms: seq<Bytes>, k: nat, j: nat)
    requires Mergeable(o, syms, k) && Mergeable(o, syms, j)
  {
    match o
    case ByRank(rank) =>
      var mine, other := rank[syms[k] + [0x20] + syms[k + 1]], rank[syms[j] + [0x20] + syms[j + 1]];
      mine < other || (mine == other && k <= j)
    case ByScore(score) =>
      var mine, other := score[syms[k] + syms[k + 1]], score[syms[j] + syms[j + 1]];
      mine > other || (mine == other && k <= j)
  }

  ghost predicate FirstPair(o: Order, syms: seq<Bytes>, k: nat) {
    Mergeable(o, syms, k) && forall j: nat | Mergeable(o, syms, j) :: GoesFirst(o, syms, k, j)
  }

  /** Merging at these positions, one after the other, leads from `syms` to `now`; each is the pair that goes first. */
  ghost predicate Merging(o: Order, syms: seq<Bytes>, merges: seq<nat>, now: seq<Bytes>)
    decreases |merges|
  {
    if merges == [] then now == syms
    else FirstPair(o, syms, merges[0]) && Merging(o, MergeAt(syms, merges[0]), merges[1..], now)
  }

  /** A whole run: it stops exactly when nothing is mergeable. */
  ghost predicate MergesTo(o: Order, syms: seq<Bytes>, merges: seq<nat>, end: seq<Bytes>) {
    Merging(o, syms, merges, end) && forall k: nat :: !Mergeable(o, end, k)
  }

  lemma MergeableHasKey(o: Order, syms: seq<Bytes>, k: nat)
    ensures Mergeable(o, syms, k) <==> PairKey(o, syms, k).Some?
  {
  }

  lemma KeysOrder(o: Order, syms: seq<Bytes>, k: nat, j: nat)
    requires Mergeable(o, syms, k) && Mergeable(o, syms, j)
    ensures PairKey(o, syms, k).Some?
    ensures GoesFirst(o, syms, k, j) <==> NotAfter(o, syms, k, j)
  {
  }

  /** The scan finds the pair that goes first. */
  lemma FindsFirstPair(o: Order, syms: seq<Bytes>)
    ensures match FindBest(o, syms, 0)
            case None => forall k: nat :: !Mergeable(o, syms, k)
            case Some(k) => FirstPair(o, syms, k)
  {
    hide Key, Mergeable, GoesFirst, PairKey, NotAfter;
    var best := FindBest(o, syms, 0);
    forall j: nat
      ensures best.None? ==> !Mergeable(o, syms, j)
      ensures best.Some? ==> Mergeable(o, syms, best.value)
      ensures best.Some? && Mergeable(o, syms, j) ==> GoesFirst(o, syms, best.value, j)
    {
      FindBestIsBest(o, syms, 0, j);
      MergeableHasKey(o, syms, j);
      if best.Some? {
        MergeableHasKey(o, syms, best.value);
        if Mergeable(o, syms, j) { KeysOrder(o, syms, best.value, j); }
      }
    }
  }

  /** A best pair is the one that goes first. */
  lemma BestIsFirst(o: Order, syms: seq<Bytes>, k: nat)
    requires IsBest(o, syms, k)
    ensures FirstPair(o, syms, k)
  {
    hide Key, Mergeable, GoesFirst, PairKey, NotAfter;
    MergeableHasKey(o, syms, k);
    forall j: nat | Mergeable(o, syms, j)
      ensures GoesFirst(o, syms, k, j)
    {
      KeysOrder(o, syms, k, j);
    }
  }

  lemma FirstPairMergeable(o: Order, syms: seq<Bytes>, k: nat)
    requires FirstPair(o, syms, k)
    ensures Mergeable(o, syms, k) && k + 1 < |syms|
  {
  }

  lemma FirstPairUnique(o: Order, syms: seq<Bytes>, k: nat, j: nat)
    requires FirstPair(o, syms, k) && FirstPair(o, syms, j)
    ensures k == j
  {
    assert GoesFirst(o, syms, k, j) && GoesFirst(o, syms, j, k);
  }

  lemma NoMergesYet(o: Order, syms: seq<Bytes>)
    ensures Merging(o, syms, [], syms)
  {
  }

  lemma {:induction false} MergingSnoc(o: Order, syms: seq<Bytes>, merges: seq<nat>, now: seq<Bytes>, k: nat)
    requires Merging(o, syms, merges, now) && FirstPair(o, now, k)
    ensures k + 1 < |now|
    ensures Merging(o, syms, merges + [k], MergeAt(now, k))
    decreases |merges|
  {
    hide FirstPair, MergeAt;
    FirstPairMergeable(o, now, k);
    if merges == [] {
      assert [k][1..] == [];
    } else {
      FirstPairMergeable(o, syms, merges[0]);
      MergingSnoc(o, MergeAt(syms, merges[0]), merges[1..], now, k);
      assert (merges + [k])[1..] == merges[1..] + [k];
    }
  }

  /** The tables leave no choice: every run from given symbols ends where rescanning ends, one symbol shorter per
      merge. */
  lemma {:induction false} MergesToRescan(o: Order, syms: seq<Bytes>, merges: seq<nat>, end: seq<Bytes>)
    requires MergesTo(o, syms, merges, end)
    ensures end == Rescan(o, syms) && |end| + |merges| == |syms|
    decreases |merges|
  {
    hide FirstPair, Mergeable, GoesFirst, FindBest, MergeAt;
    FindsFirstPair(o, syms);
    var best := FindBest(o, syms, 0);
    if best.Some? { FirstPairMergeable(o, syms, best.value); }
    if merges != [] {
      FirstPairMergeable(o, syms, merges[0]);
      FirstPairUnique(o, syms, best.value, merges[0]);
      MergeAtSize(syms, merges[0]);
      MergesToRescan(o, MergeAt(syms, merges[0]), merges[1..], end);
    }
  }

  lemma MergeAtSize(syms: seq<Bytes>, k: nat)
    requires k + 1 < |syms|
    ensures |MergeAt(syms, k)| == |syms| - 1
  {
  }

  /** And there is one. */
  lemma {:induction false} RescanMergesTo(o: Order, syms: seq<Bytes>) returns (merges: seq<nat>)
    ensures MergesTo(o, syms, merges, Rescan(o, syms))
    decreases |syms|
  {
    hide FirstPair, Mergeable, FindBest, MergeAt;
    FindsFirstPair(o, syms);
    match FindBest(o, syms, 0)
    case None => merges := [];
    case Some(k) =>
      FirstPairMergeable(o, syms, k);
      MergeAtSize(syms, k);
      var rest := RescanMergesTo(o, MergeAt(syms, k));
      merges := [k] + rest;
      assert merges[1..] == rest;
  }

  // ---------------------------------------------------------------- the linked list of spans

  /** A span of the normalized text in a doubly linked list; a merged-away symbol has length 0. */
  datatype Sym = Sym(start: nat, len: nat, prev: int, next: int)

  /** A candidate pair, recorded with the total length it had when it was pushed. */
  datatype Cand = Cand(key: real, left: int, right: int, len: nat)

  /** `c > d` of the original: `d` leaves the queue before `c`. */
  predicate Ahead(d: Cand, c: Cand) {
    if c.key != d.key then c.key > d.key else c.left > d.left
  }

  function Text(norm: Bytes, s: Sym): Bytes {
    Substr(norm, s.start, s.len)
  }

  function Texts(norm: Bytes, sym: seq<Sym>, live: seq<nat>): (r: seq<Bytes>)
    requires forall k | 0 <= k < |live| :: live[k] < |sym|
    ensures |r| == |live|
    ensures forall k: nat | k < |live| :: r[k] == Text(norm, sym[live[k]])
  {
    seq(|live|, k requires 0 <= k < |live| => Text(norm, sym[live[k]]))
  }

  /** The `k`-th live symbol: its links lead to its neighbours in `live` and its span ends where the next
      one starts, the last one at the end of `norm`. */
  ghost predicate NodeOk(norm: Bytes, sym: seq<Sym>, live: seq<nat>, k: nat)
    requires k < |live|
  {
    && live[k] < |sym|
    && var s := sym[live[k]];
    && s.len > 0
    && s.start + s.len <= |norm|
    && s.prev == (if k > 0 then live[k - 1] else -1)
    && (if k + 1 < |live|
        then s.next == live[k + 1] && live[k + 1] < |sym| && s.start + s.len == sym[live[k + 1]].start
        else s.next == -1 && s.start + s.len == |norm|)
  }

  ghost predicate Accounted(sym: seq<Sym>, live: seq<nat>, i: nat) {
    i < |sym| && sym[i].len > 0 ==> i in live
  }

  /** `live` lists, in increasing order, the symbols of positive length, and its spans tile `norm`. */
  ghost predicate ListOk(norm: Bytes, sym: seq<Sym>, live: seq<nat>) {
    && |live| > 0 && live[0] == 0
    && (forall j, k | 0 <= j < k < |live| :: live[j] < live[k])
    && (forall i: nat :: Accounted(sym, live, i))
    && (forall k: nat | k < |live| :: live[k] < |sym|)
    && (forall k: nat | k < |live| :: NodeOk(norm, sym, live, k))
    && sym[0].start == 0
  }

  /** The candidate was pushed for spans of lengths `a` and `b`; a span still live has not shrunk since. */
  ghost predicate Recorded(o: Order, norm: Bytes, sym: seq<Sym>, c: Cand, a: nat, b: nat)
    requires 0 <= c.left < c.right < |sym|
  {
    && a > 0 && b > 0 && a + b == c.len
    && (sym[c.left].len == 0 || a <= sym[c.left].len)
    && (sym[c.right].len == 0 || b <= sym[c.right].len)
    && Key(o, Substr(norm, sym[c.left].start, a), Substr(norm, sym[c.right].start, b)) == Some(c.key)
  }

  ghost predicate CandOk(o: Order, norm: Bytes, sym: seq<Sym>, c: Cand) {
    && 0 <= c.left < c.right < |sym|
    && exists a: nat, b: nat :: Recorded(o, norm, sym, c, a, b)
  }

  /** The candidate `consider` pushes for the live neighbours `l` and `r`. */
  function CandFor(o: Order, norm: Bytes, sym: seq<Sym>, l: int, r: int): Option<Cand>
    requires 0 <= l < |sym| && 0 <= r < |sym|
  {
    match Key(o, Text(norm, sym[l]), Text(norm, sym[r]))
    case None => None
    case Some(key) => Some(Cand(key, l, r, sym[l].len + sym[r].len))
  }

  predicate Stale(sym: seq<Sym>, c: Cand)
    requires 0 <= c.left < |sym| && 0 <= c.right < |sym|
  {
    || sym[c.left].len == 0
    || sym[c.right].len == 0
    || sym[c.left].next != c.right
    || sym[c.left].len + sym[c.right].len != c.len
  }

  /** Queue completeness: every mergeable live neighbour pair has its current candidate in the queue. */
  ghost predicate Covered(o: Order, norm: Bytes, sym: seq<Sym>, live: seq<nat>, queue: multiset<Cand>, k: nat)
    requires k + 1 < |live| && live[k] < |sym| && live[k + 1] < |sym|
  {
    var c := CandFor(o, norm, sym, live[k], live[k + 1]);
    c.Some? ==> c.value in queue
  }

  ghost predicate QueueOk(o: Order, norm: Bytes, sym: seq<Sym>, live: seq<nat>, queue: multiset<Cand>)
    requires ListOk(norm, sym, live)
  {
    && (forall c | c in queue :: CandOk(o, norm, sym, c))
    && (forall k: nat | k + 1 < |live| :: Covered(o, norm, sym, live, queue, k))
  }

  /** `c` is the candidate that `consider` would push now for the live neighbours `k` and `k + 1`. */
  ghost predicate Current(o: Order, norm: Bytes, sym: seq<Sym>, live: seq<nat>, c: Cand, k: nat) {
    && k + 1 < |live| && live[k] < |sym| && live[k + 1] < |sym|
    && CandFor(o, norm, sym, live[k], live[k + 1]) == Some(c)
  }

  /** The stale test is exact: a queued candidate passes it if and only if it is the current candidate of
      two live neighbours. */
  lemma StaleTestExact(o: Order, norm: Bytes, sym: seq<Sym>, live: seq<nat>, c: Cand)
    requires ListOk(norm, sym, live) && CandOk(o, norm, sym, c)
    ensures !Stale(sym, c) <==> exists k: nat :: Current(o, norm, sym, live, c, k)
  {
    hide Key, Substr;
    if !Stale(sym, c) {
      assert Accounted(sym, live, c.left);
      var k: nat :| k < |live| && live[k] == c.left;
      assert NodeOk(norm, sym, live, k);
      var a: nat, b: nat :| Recorded(o, norm, sym, c, a, b);
      assert a == sym[c.left].len && b == sym[c.right].len;
      assert Current(o, norm, sym, live, c, k);
    }
    forall k: nat | Current(o, norm, sym, live, c, k)
      ensures !Stale(sym, c)
    {
      assert NodeOk(norm, sym, live, k) && NodeOk(norm, sym, live, k + 1);
    }
  }

  /** A fresh candidate that no queued one precedes names the best pair of the current symbols, the one the tables put
      first. */
  lemma TopIsBest(o: Order, norm: Bytes, sym: seq<Sym>, live: seq<nat>, queue: multiset<Cand>, c: Cand, k: nat)
    requires ListOk(norm, sym, live) && QueueOk(o, norm, sym, live, queue)
    requires forall d | d in queue :: !Ahead(d, c)
    requires Current(o, norm, sym, live, c, k)
    ensures IsBest(o, Texts(norm, sym, live), k) && FirstPair(o, Texts(norm, sym, live), k)
  {
    hide Key, FirstPair;
    var syms := Texts(norm, sym, live);
    forall j: nat
      ensures NotAfter(o, syms, k, j)
    {
      if PairKey(o, syms, j).Some? {
        assert Covered(o, norm, sym, live, queue, j);
        var d := CandFor(o, norm, sym, live[j], live[j + 1]).value;
        assert d in queue && !Ahead(d, c);
      }
    }
    BestIsFirst(o, syms, k);
  }

  /** With the queue empty nothing is mergeable, so rescanning stops here too. */
  lemma EmptyQueueIsFinal(o: Order, norm: Bytes, sym: seq<Sym>, live: seq<nat>)
    requires ListOk(norm, sym, live) && QueueOk(o, norm, sym, live, multiset{})
    ensures Rescan(o, Texts(norm, sym, live)) == Texts(norm, sym, live)
    ensures forall k: nat :: !Mergeable(o, Texts(norm, sym, live), k)
  {
    var syms := Texts(norm, sym, live);
    forall k: nat | k + 1 < |syms|
      ensures PairKey(o, syms, k).None?
    {
      assert Covered(o, norm, sym, live, multiset{}, k);
    }
    assert FindBest(o, syms, 0).None?;
    FindsFirstPair(o, syms);
  }

  /** The in-place updates of one merge. */
  function Merged(sym: seq<Sym>, left: nat, right: nat): (r: seq<Sym>)
    requires left < right < |sym| && sym[right].next < |sym|
    ensures |r| == |sym|
  {
    var l, r := sym[left], sym[right];
    var s := sym[left := Sym(l.start, l.len + r.len, l.prev, r.next)][right := r.(len := 0)];
    if r.next >= 0 then s[r.next := s[r.next].(prev := left)] else s
  }

  function Without(live: seq<nat>, k: nat): (r: seq<nat>)
    requires k + 1 < |live|
    ensures |r| == |live| - 1
    ensures forall j | 0 <= j < |r| :: r[j] == if j <= k then live[j] else live[j + 1]
  {
    live[..k + 1] + live[k + 2..]
  }

  /** What a merge leaves at each symbol. */
  lemma MergedAt(norm: Bytes, sym: seq<Sym>, live: seq<nat>, k: nat, i: nat)
    requires ListOk(norm, sym, live) && k + 1 < |live| && i < |sym|
    ensures live[k] < live[k + 1] && sym[live[k + 1]].next < |sym|
    ensures var sym' := Merged(sym, live[k], live[k + 1]);
            && sym'[i].start == sym[i].start
            && sym'[i].len == (if i == live[k] then sym[live[k]].len + sym[live[k + 1]].len
                               else if i == live[k + 1] then 0 else sym[i].len)
            && sym'[i].next == (if i == live[k] then sym[live[k + 1]].next else sym[i].next)
            && sym'[i].prev == (if k + 2 < |live| && i == live[k + 2] then live[k] else sym[i].prev)
  {
    assert NodeOk(norm, sym, live, k) && NodeOk(norm, sym, live, k + 1);
  }

  lemma MergedSize(norm: Bytes, sym: seq<Sym>, live: seq<nat>, k: nat)
    requires ListOk(norm, sym, live) && k + 1 < |live|
    requires live[k] < live[k + 1] < |sym| && sym[live[k + 1]].next < |sym|
    ensures |Merged(sym, live[k], live[k + 1])| == |sym|
  {
    hide ListOk;
  }

  lemma WithoutAt(live: seq<nat>, k: nat, j: nat)
    requires k + 1 < |live|
    ensures |Without(live, k)| == |live| - 1
    ensures j + 1 < |live| ==> Without(live, k)[j] == live[if j <= k then j else j + 1]
  {
  }

  lemma MergeKeepsNode(norm: Bytes, sym: seq<Sym>, live: seq<nat>, k: nat, j: nat)
    requires ListOk(norm, sym, live) && k + 1 < |live| && j + 1 < |live|
    requires sym[live[k + 1]].next < |sym|
    ensures |Without(live, k)| == |live| - 1
    ensures NodeOk(norm, Merged(sym, live[k], live[k + 1]), Without(live, k), j)
  {
    hide Merged, Without;
    var i := if j <= k then j else j + 1;
    MergedAt(norm, sym, live, k, live[i]);
    MergedSize(norm, sym, live, k);
    WithoutAt(live, k, j);
    WithoutAt(live, k, j + 1);
    if j > 0 { WithoutAt(live, k, j - 1); }
    assert NodeOk(norm, sym, live, i);
    if j == k { assert NodeOk(norm, sym, live, k + 1); }
    if j + 2 < |live| { MergedAt(norm, sym, live, k, live[if j + 1 <= k then j + 1 else j + 2]); }
  }

  lemma MergeKeepsAccount(norm: Bytes, sym: seq<Sym>, live: seq<nat>, k: nat, i: nat)
    requires ListOk(norm, sym, live) && k + 1 < |live| && sym[live[k + 1]].next < |sym|
    ensures Accounted(Merged(sym, live[k], live[k + 1]), Without(live, k), i)
  {
    hide Merged;
    var live' := Without(live, k);
    if i < |sym| {
      MergedAt(norm, sym, live, k, i);
      assert NodeOk(norm, sym, live, k) && Accounted(sym, live, i);
      if sym[i].len > 0 && i != live[k + 1] {
        var j :| 0 <= j < |live| && live[j] == i;
        assert live'[if j <= k then j else j - 1] == i;
      }
    }
  }

  lemma MergeKeepsList(norm: Bytes, sym: seq<Sym>, live: seq<nat>, k: nat)
    requires ListOk(norm, sym, live) && k + 1 < |live|
    ensures sym[live[k + 1]].next < |sym|
    ensures ListOk(norm, Merged(sym, live[k], live[k + 1]), Without(live, k))
  {
    hide Merged, NodeOk, Accounted;
    MergedAt(norm, sym, live, k, 0);
    var sym' := Merged(sym, live[k], live[k + 1]);
    var live' := Without(live, k);
    forall j: nat | j < |live'|
      ensures NodeOk(norm, sym', live', j)
    {
      MergeKeepsNode(norm, sym, live, k, j);
    }
    forall i: nat
      ensures Accounted(sym', live', i)
    {
      MergeKeepsAccount(norm, sym, live, k, i);
    }
  }

  lemma SubstrJoin(s: Bytes, start: nat, a: nat, b: nat)
    requires start + a + b <= |s|
    ensures Substr(s, start, a) + Substr(s, start + a, b) == Substr(s, start, a + b)
  {
  }

  lemma MergedText(norm: Bytes, sym: seq<Sym>, live: seq<nat>, k: nat, i: nat)
    requires ListOk(norm, sym, live) && k + 1 < |live| && i < |live| && i != k + 1
    requires sym[live[k + 1]].next < |sym|
    ensures Text(norm, Merged(sym, live[k], live[k + 1])[live[i]]) ==
            if i == k then Text(norm, sym[live[k]]) + Text(norm, sym[live[k + 1]]) else Text(norm, sym[live[i]])
  {
    hide Merged, Substr;
    MergedAt(norm, sym, live, k, live[i]);
    assert NodeOk(norm, sym, live, k) && NodeOk(norm, sym, live, k + 1);
    SubstrJoin(norm, sym[live[k]].start, sym[live[k]].len, sym[live[k + 1]].len);
  }

  lemma MergeAtIs(syms: seq<Bytes>, k: nat, j: nat)
    requires k + 1 < |syms|
    ensures |MergeAt(syms, k)| == |syms| - 1
    ensures j + 1 < |syms| ==>
              MergeAt(syms, k)[j] == if j < k then syms[j] else if j == k then syms[k] + syms[k + 1] else syms[j + 1]
  {
  }

  lemma TextsAt(norm: Bytes, sym: seq<Sym>, live: seq<nat>, j: nat)
    requires forall k | 0 <= k < |live| :: live[k] < |sym|
    ensures |Texts(norm, sym, live)| == |live|
    ensures j < |live| ==> Texts(norm, sym, live)[j] == Text(norm, sym[live[j]])
  {
    hide Text;
  }

  /** The concatenation at one place. */
  lemma MergeConcatenatesAt(norm: Bytes, sym: seq<Sym>, live: seq<nat>, k: nat, j: nat)
    requires ListOk(norm, sym, live) && k + 1 < |live| && sym[live[k + 1]].next < |sym| && j + 1 < |live|
    requires ListOk(norm, Merged(sym, live[k], live[k + 1]), Without(live, k))
    ensures |Texts(norm, Merged(sym, live[k], live[k + 1]), Without(live, k))| == |live| - 1
    ensures |MergeAt(Texts(norm, sym, live), k)| == |live| - 1
    ensures Texts(norm, Merged(sym, live[k], live[k + 1]), Without(live, k))[j] == MergeAt(Texts(norm, sym, live), k)[j]
  {
    hide Text, Texts, NodeOk, Accounted, Merged, Without, MergeAt;
    var i := if j <= k then j else j + 1;
    WithoutAt(live, k, j);
    MergedText(norm, sym, live, k, i);
    TextsAt(norm, Merged(sym, live[k], live[k + 1]), Without(live, k), j);
    TextsAt(norm, sym, live, i);
    TextsAt(norm, sym, live, k + 1);
    MergeAtIs(Texts(norm, sym, live), k, j);
  }

  lemma MergeConcatenates(norm: Bytes, sym: seq<Sym>, live: seq<nat>, k: nat)
    requires ListOk(norm, sym, live) && k + 1 < |live| && sym[live[k + 1]].next < |sym|
    requires ListOk(norm, Merged(sym, live[k], live[k + 1]), Without(live, k))
    ensures Texts(norm, Merged(sym, live[k], live[k + 1]), Without(live, k)) == MergeAt(Texts(norm, sym, live), k)
  {
    hide Text, Texts, NodeOk, Accounted, Merged, Without, MergeAt;
    MergeConcatenatesAt(norm, sym, live, k, 0);
    var texts' := Texts(norm, Merged(sym, live[k], live[k + 1]), Without(live, k));
    var merged := MergeAt(Texts(norm, sym, live), k);
    forall j: nat | j + 1 < |live|
      ensures texts'[j] == merged[j]
    {
      MergeConcatenatesAt(norm, sym, live, k, j);
    }
  }

  lemma MergeKeepsCand(o: Order, norm: Bytes, sym: seq<Sym>, live: seq<nat>, k: nat, c: Cand)
    requires ListOk(norm, sym, live) && k + 1 < |live| && sym[live[k + 1]].next < |sym|
    requires CandOk(o, norm, sym, c)
    ensures CandOk(o, norm, Merged(sym, live[k], live[k + 1]), c)
  {
    hide Key, Substr, Merged;
    var a: nat, b: nat :| Recorded(o, norm, sym, c, a, b);
    MergedAt(norm, sym, live, k, c.left);
    MergedAt(norm, sym, live, k, c.right);
    assert NodeOk(norm, sym, live, k);
    assert Recorded(o, norm, Merged(sym, live[k], live[k + 1]), c, a, b);
  }

  /** Pairs away from the merge keep their candidate. */
  lemma MergeKeepsCover(o: Order, norm: Bytes, sym: seq<Sym>, live: seq<nat>, queue: multiset<Cand>, k: nat, c: Cand,
                        j: nat)
    requires ListOk(norm, sym, live) && QueueOk(o, norm, sym, live, queue)
    requires Current(o, norm, sym, live, c, k)
    requires sym[live[k + 1]].next < |sym|
    requires j + 1 < |live| - 1 && j + 1 != k && j != k
    ensures Covered(o, norm, Merged(sym, live[k], live[k + 1]), Without(live, k), queue - multiset{c}, j)
  {
    hide Key, Substr, Merged;
    var i := if j < k then j else j + 1;
    MergedAt(norm, sym, live, k, live[i]);
    MergedAt(norm, sym, live, k, live[i + 1]);
    assert Covered(o, norm, sym, live, queue, i);
  }

  /** Dropping a stale candidate uncovers nothing. */
  lemma DropKeepsQueue(o: Order, norm: Bytes, sym: seq<Sym>, live: seq<nat>, queue: multiset<Cand>, c: Cand)
    requires ListOk(norm, sym, live) && QueueOk(o, norm, sym, live, queue)
    requires c in queue && Stale(sym, c)
    ensures QueueOk(o, norm, sym, live, queue - multiset{c})
  {
    StaleTestExact(o, norm, sym, live, c);
    forall k: nat | k + 1 < |live|
      ensures Covered(o, norm, sym, live, queue - multiset{c}, k)
    {
      assert Covered(o, norm, sym, live, queue, k);
      assert !Current(o, norm, sym, live, c, k);
    }
  }

  lemma FirstExists(queue: multiset<Cand>)
    requires queue != multiset{}
    ensures exists c :: c in queue && forall d | d in queue :: !Ahead(d, c)
    decreases |queue|
  {
    var c :| c in queue;
    var rest := queue - multiset{c};
    assert forall d | d in queue :: d == c || d in rest;
    if rest != multiset{} {
      FirstExists(rest);
      var m :| m in rest && forall d | d in rest :: !Ahead(d, m);
      var first := if Ahead(c, m) then c else m;
      assert first in queue && forall d | d in queue :: !Ahead(d, first);
    } else {
      assert !Ahead(c, c);
    }
  }

  // ---------------------------------------------------------------- the algorithm

  /** A node built so far, the last one still pointing one past the end. */
  ghost predicate Chained(norm: Bytes, sym: seq<Sym>, texts: seq<Bytes>, k: nat, end: nat)
    requires k < |sym| == |texts|
  {
    && sym[k].prev == k - 1 && sym[k].next == k + 1 && sym[k].len > 0
    && sym[k].start + sym[k].len == (if k + 1 < |sym| then sym[k + 1].start else end)
    && sym[k].start + sym[k].len <= end <= |norm|
    && texts[k] == Text(norm, sym[k])
  }

  /** The nodes built for `norm[..end]`. */
  ghost predicate Built(norm: Bytes, sym: seq<Sym>, texts: seq<Bytes>, end: nat) {
    && |sym| == |texts| && (|sym| > 0 ==> sym[0].start == 0)
    && (end > 0 <==> |sym| > 0)
    && forall k: nat | k < |sym| :: Chained(norm, sym, texts, k, end)
  }

  lemma BuildOne(norm: Bytes, sym: seq<Sym>, texts: seq<Bytes>, sym': seq<Sym>, texts': seq<Bytes>, i: nat, i': nat)
    requires Built(norm, sym, texts, i) && i < i' <= |norm|
    requires sym' == sym + [Sym(i, i' - i, |sym| - 1, |sym| + 1)] && texts' == texts + [norm[i..i']]
    ensures Built(norm, sym', texts', i')
  {
    forall k: nat | k < |sym'|
      ensures Chained(norm, sym', texts', k, i')
    {
      if k < |sym| { assert Chained(norm, sym, texts, k, i); }
    }
  }

  lemma CloseChain(norm: Bytes, sym0: seq<Sym>, texts: seq<Bytes>, sym: seq<Sym>, live: seq<nat>)
    requires Built(norm, sym0, texts, |norm|) && 0 < |sym0| == |live|
    requires sym == sym0[|sym0| - 1 := sym0[|sym0| - 1].(next := -1)]
    requires forall k: nat | k < |live| :: live[k] == k
    ensures ListOk(norm, sym, live) && Texts(norm, sym, live) == texts
  {
    forall k: nat | k < |live|
      ensures NodeOk(norm, sym, live, k) && Text(norm, sym[k]) == texts[k]
    {
      assert Chained(norm, sym0, texts, k, |norm|);
    }
    forall i: nat
      ensures Accounted(sym, live, i)
    {
      if i < |sym| { assert live[i] == i; }
    }
    assert Texts(norm, sym, live) == texts;
  }

  /** Cuts `norm` into symbols, one list node each. */
  method InitSymbols(norm: Bytes) returns (sym: seq<Sym>, ghost live: seq<nat>)
    requires norm != []
    ensures ListOk(norm, sym, live) && |live| == |sym|
    ensures forall k: nat | k < |live| :: live[k] == k
    ensures Texts(norm, sym, live) == Chars(norm)
  {
    hide Chained, ListOk, Texts, Chars, CharLen;
    sym := [];
    ghost var texts: seq<Bytes> := [];
    CharsEnds(norm);
    var i := 0;
    while i < |norm|
      invariant 0 <= i <= |norm|
      invariant Built(norm, sym, texts, i)
      invariant texts + Chars(norm[i..]) == Chars(norm)
    {
      var n := CharLen(norm, i);
      CharsStep(norm, i);
      ghost var sym0, texts0 := sym, texts;
      sym := sym + [Sym(i, n, |sym| - 1, |sym| + 1)];
      texts := texts + [norm[i..i + n]];
      BuildOne(norm, sym0, texts0, sym, texts, i, i + n);
      assert texts + Chars(norm[i + n..]) == texts0 + Chars(norm[i..]);
      i := i + n;
    }
    ghost var sym0 := sym;
    sym := sym[|sym| - 1 := sym[|sym| - 1].(next := -1)];
    live := seq(|sym|, k => k);
    CloseChain(norm, sym0, texts, sym, live);
  }

  /** The queue after `consider(l, r)`. */
  function Push(o: Order, norm: Bytes, sym: seq<Sym>, l: int, r: int, queue: multiset<Cand>): multiset<Cand>
    requires -1 <= l < |sym| && -1 <= r < |sym|
  {
    if l < 0 || r < 0 then queue
    else match CandFor(o, norm, sym, l, r) case None => queue case Some(c) => queue + multiset{c}
  }

  /** Pushes the pair (l, r) if both ends exist and the pair is mergeable. */
  method Consider(o: Order, norm: Bytes, sym: seq<Sym>, l: int, r: int, queue: multiset<Cand>)
    returns (queue': multiset<Cand>)
    requires -1 <= l < |sym| && -1 <= r < |sym|
    requires l >= 0 && r >= 0 ==> sym[l].start + sym[l].len == sym[r].start && sym[r].start + sym[r].len <= |norm|
    ensures queue' == Push(o, norm, sym, l, r, queue)
    ensures l < 0 || r < 0 ==> queue' == queue
  {
    queue' := queue;
    if l < 0 || r < 0 {
      return;
    }
    var len := sym[l].len + sym[r].len;
    match o
    case ByRank(rank) =>
      var spelled := Substr(norm, sym[l].start, sym[l].len) + [0x20] + Substr(norm, sym[r].start, sym[r].len);
      if spelled in rank {
        queue' := queue' + multiset{Cand(rank[spelled] as real, l, r, len)};
      }
    case ByScore(score) =>
      var joined := Substr(norm, sym[l].start, len);
      assert joined == Text(norm, sym[l]) + Text(norm, sym[r]);
      if joined in score {
        queue' := queue' + multiset{Cand(-score[joined], l, r, len)};
      }
  }

  lemma CandForIsOk(o: Order, norm: Bytes, sym: seq<Sym>, live: seq<nat>, k: nat)
    requires ListOk(norm, sym, live) && k + 1 < |live|
    ensures var c := CandFor(o, norm, sym, live[k], live[k + 1]); c.Some? ==> CandOk(o, norm, sym, c.value)
  {
    assert NodeOk(norm, sym, live, k) && NodeOk(norm, sym, live, k + 1);
    var c := CandFor(o, norm, sym, live[k], live[k + 1]);
    if c.Some? {
      assert Recorded(o, norm, sym, c.value, sym[live[k]].len, sym[live[k + 1]].len);
    }
  }

  /** Pushing a live pair covers it, keeps the pairs already covered, and adds one candidate at most. */
  lemma PushCovers(o: Order, norm: Bytes, sym: seq<Sym>, live: seq<nat>, k: nat, queue: multiset<Cand>)
    requires ListOk(norm, sym, live) && k + 1 < |live|
    requires forall c | c in queue :: CandOk(o, norm, sym, c)
    ensures var queue' := Push(o, norm, sym, live[k], live[k + 1], queue);
            && (forall c | c in queue' :: CandOk(o, norm, sym, c))
            && Covered(o, norm, sym, live, queue', k)
            && queue <= queue' && |queue| <= |queue'| <= |queue| + 1
  {
    hide Key, Text, Recorded;
    CandForIsOk(o, norm, sym, live, k);
  }

  lemma CoverGrows(o: Order, norm: Bytes, sym: seq<Sym>, live: seq<nat>, queue: multiset<Cand>, queue': multiset<Cand>,
                   j: nat)
    requires j + 1 < |live| && live[j] < |sym| && live[j + 1] < |sym|
    requires Covered(o, norm, sym, live, queue, j) && queue <= queue'
    ensures Covered(o, norm, sym, live, queue', j)
  {
  }

  method FillQueue(o: Order, norm: Bytes, sym: seq<Sym>, ghost live: seq<nat>) returns (queue: multiset<Cand>)
    requires ListOk(norm, sym, live) && |live| == |sym| && forall k: nat | k < |live| :: live[k] == k
    ensures QueueOk(o, norm, sym, live, queue)
    ensures |queue| <= |sym| - 1
  {
    hide Key, Text, CandFor, CandOk;
    queue := multiset{};
    var i := 0;
    while i + 1 < |sym|
      invariant 0 <= i < |sym|
      invariant |queue| <= i
      invariant forall c | c in queue :: CandOk(o, norm, sym, c)
      invariant forall k: nat | k < i :: Covered(o, norm, sym, live, queue, k)
    {
      assert NodeOk(norm, sym, live, i) && NodeOk(norm, sym, live, i + 1);
      ghost var before := queue;
      PushCovers(o, norm, sym, live, i, queue);
      queue := Consider(o, norm, sym, i, i + 1, queue);
      forall k: nat | k < i + 1
        ensures Covered(o, norm, sym, live, queue, k)
      {
        if k < i { CoverGrows(o, norm, sym, live, before, queue, k); }
      }
      i := i + 1;
    }
  }

  /** The two pushes after a merge restore queue completeness. */
  lemma ConsideredBoth(o: Order, norm: Bytes, sym: seq<Sym>, live: seq<nat>, k: nat, q0: multiset<Cand>,
                       q1: multiset<Cand>, q2: multiset<Cand>)
    requires ListOk(norm, sym, live) && k < |live|
    requires forall c | c in q0 :: CandOk(o, norm, sym, c)
    requires forall j: nat | j + 1 < |live| && j + 1 != k && j != k :: Covered(o, norm, sym, live, q0, j)
    requires q1 == if k == 0 then q0 else Push(o, norm, sym, live[k - 1], live[k], q0)
    requires q2 == if k + 1 == |live| then q1 else Push(o, norm, sym, live[k], live[k + 1], q1)
    ensures QueueOk(o, norm, sym, live, q2)
    ensures |q0| <= |q2| <= |q0| + 2
  {
    hide Push, CandFor, CandOk, NodeOk;
    if k > 0 { PushCovers(o, norm, sym, live, k - 1, q0); }
    if k + 1 < |live| { PushCovers(o, norm, sym, live, k, q1); }
    forall j: nat | j + 1 < |live|
      ensures Covered(o, norm, sym, live, q2, j)
    {
      if j + 1 == k {
        CoverGrows(o, norm, sym, live, q1, q2, j);
      } else if j != k {
        CoverGrows(o, norm, sym, live, q0, q2, j);
      }
    }
  }

  /** After a merge the remaining candidates are still sound and still cover the pairs away from it. */
  lemma MergeKeepsQueue(o: Order, norm: Bytes, sym: seq<Sym>, live: seq<nat>, queue: multiset<Cand>, k: nat, c: Cand)
    requires ListOk(norm, sym, live) && QueueOk(o, norm, sym, live, queue)
    requires c in queue && Current(o, norm, sym, live, c, k)
    requires sym[live[k + 1]].next < |sym|
    ensures var sym', live', queue' := Merged(sym, live[k], live[k + 1]), Without(live, k), queue - multiset{c};
            && (forall d | d in queue' :: CandOk(o, norm, sym', d))
            && (forall j: nat | j < |live'| :: live'[j] < |sym'|)
            && forall j: nat | j + 1 < |live'| && j + 1 != k && j != k :: Covered(o, norm, sym', live', queue', j)
  {
    hide Key, Merged, CandOk, Covered;
    var sym', live', queue' := Merged(sym, live[k], live[k + 1]), Without(live, k), queue - multiset{c};
    forall d | d in queue'
      ensures CandOk(o, norm, sym', d)
    {
      MergeKeepsCand(o, norm, sym, live, k, d);
    }
    forall j: nat | j + 1 < |live'| && j + 1 != k && j != k
      ensures Covered(o, norm, sym', live', queue', j)
    {
      MergeKeepsCover(o, norm, sym, live, queue, k, c, j);
    }
  }

  /** Rewrites the spans and links of the pair (left, right) in place. */
  method Relink(norm: Bytes, sym: seq<Sym>, left: nat, right: nat) returns (sym': seq<Sym>)
    requires left < right < |sym| && sym[right].next < |sym|
    ensures sym' == Merged(sym, left, right)
  {
    var l, r := sym[left], sym[right];
    sym' := sym[left := l.(len := l.len + r.len)];
    sym' := sym'[right := r.(len := 0)];
    sym' := sym'[left := sym'[left].(next := r.next)];
    if r.next >= 0 {
      sym' := sym'[r.next := sym'[r.next].(prev := left)];
    }
  }

  /** One merge: relinks the list and considers the two new neighbour pairs. */
  method Merge(o: Order, norm: Bytes, sym: seq<Sym>, ghost live: seq<nat>, queue: multiset<Cand>, c: Cand, ghost k: nat)
    returns (sym': seq<Sym>, queue': multiset<Cand>)
    requires ListOk(norm, sym, live) && QueueOk(o, norm, sym, live, queue)
    requires c in queue && Current(o, norm, sym, live, c, k)
    ensures |sym'| == |sym|
    ensures ListOk(norm, sym', Without(live, k))
    ensures Texts(norm, sym', Without(live, k)) == MergeAt(Texts(norm, sym, live), k)
    ensures QueueOk(o, norm, sym', Without(live, k), queue')
    ensures |queue| - 1 <= |queue'| <= |queue| + 1
  {
    hide Key, Merged, CandOk, Covered, Texts, MergeAt, Push;
    MergeKeepsList(norm, sym, live, k);
    MergeConcatenates(norm, sym, live, k);
    MergeKeepsQueue(o, norm, sym, live, queue, k, c);
    var queue0 := queue - multiset{c};
    sym' := Relink(norm, sym, c.left, c.right);
    ghost var live' := Without(live, k);
    assert live'[k] == c.left && NodeOk(norm, sym', live', k);
    if k > 0 { assert NodeOk(norm, sym', live', k - 1); }
    if k + 1 < |live'| { assert NodeOk(norm, sym', live', k + 1); }
    var queue1 := Consider(o, norm, sym', sym'[c.left].prev, c.left, queue0);
    assert queue1 == if k == 0 then queue0 else Push(o, norm, sym', live'[k - 1], live'[k], queue0);
    queue' := Consider(o, norm, sym', c.left, sym'[c.left].next, queue1);
    assert queue' == if k + 1 == |live'| then queue1 else Push(o, norm, sym', live'[k], live'[k + 1], queue1);
    ConsideredBoth(o, norm, sym', live', k, queue0, queue1, queue');
  }

  /** The queue-driven merge loop ends with exactly the symbols that rescanning ends with, whichever of
      several equally placed candidates the queue yields first, after at most 3(n-1) pushes. `merges` lists the
      pairs it merged: each the earliest listed or highest scoring one present, the leftmost on a tie. */
  method MergeLoop(o: Order, norm: Bytes, sym0: seq<Sym>, ghost live0: seq<nat>)
    returns (sym: seq<Sym>, ghost live: seq<nat>, ghost pushed: nat, ghost merges: seq<nat>)
    requires ListOk(norm, sym0, live0) && |live0| == |sym0| && forall k | 0 <= k < |live0| :: live0[k] == k
    ensures ListOk(norm, sym, live) && |sym| == |sym0|
    ensures Texts(norm, sym, live) == Rescan(o, Texts(norm, sym0, live0))
    ensures MergesTo(o, Texts(norm, sym0, live0), merges, Texts(norm, sym, live))
    ensures pushed <= 3 * (|sym0| - 1)
  {
    hide Key, Text, CandFor, Recorded, Texts, Rescan, MergeAt, Without, Merging, FirstPair, Mergeable;
    sym, live, merges := sym0, live0, [];
    var queue := FillQueue(o, norm, sym, live);
    pushed := |queue|;
    NoMergesYet(o, Texts(norm, sym0, live0));
    while queue != multiset{}
      invariant ListOk(norm, sym, live) && |sym| == |sym0|
      invariant QueueOk(o, norm, sym, live, queue)
      invariant Rescan(o, Texts(norm, sym, live)) == Rescan(o, Texts(norm, sym0, live0))
      invariant Merging(o, Texts(norm, sym0, live0), merges, Texts(norm, sym, live))
      invariant 1 <= |live| <= |sym0| && pushed <= |sym0| - 1 + 2 * (|sym0| - |live|)
      decreases 3 * |live| + |queue|
    {
      FirstExists(queue);
      var c :| c in queue && forall d | d in queue :: !Ahead(d, c);
      StaleTestExact(o, norm, sym, live, c);
      if sym[c.left].len == 0 || sym[c.right].len == 0 || sym[c.left].next != c.right
         || sym[c.left].len + sym[c.right].len != c.len
      {
        DropKeepsQueue(o, norm, sym, live, queue, c);
        queue := queue - multiset{c};
        continue;
      }
      ghost var k: nat :| Current(o, norm, sym, live, c, k);
      TopIsBest(o, norm, sym, live, queue, c, k);
      RescanMerges(o, Texts(norm, sym, live), k);
      MergingSnoc(o, Texts(norm, sym0, live0), merges, Texts(norm, sym, live), k);
      merges := merges + [k];
      ghost var size := |queue|;
      sym, queue := Merge(o, norm, sym, live, queue, c, k);
      live := Without(live, k);
      pushed := pushed + (|queue| + 1 - size);
    }
    EmptyQueueIsFinal(o, norm, sym, live);
  }
}
