/** Matrix product in 16 by 16 tiles staged through shared memory: 256 threads, interleaved step by step, held
    together by two barriers per tile. Floats are uninterpreted. */
module TiledMatmul {
  import opened Numbers

  datatype Arith<!F> = Arith(zero: F, add: (F, F) -> F, mul: (F, F) -> F)

  /** The operands, row-major, and the block that works on them. */
  datatype Job<!F> = Job(ar: Arith<F>, a: seq<F>, b: seq<F>, n: nat, blockY: nat, blockX: nat)

  predicate JobOk<F>(j: Job<F>) {
    |j.a| == |j.b| == j.n * j.n
  }

  lemma Cell(n: nat, row: nat, col: nat)
    requires row < n && col < n
    ensures 0 <= row * n + col < n * n
  {
    MulLe(row + 1, n, n);
    MulLe(0, row, n);
  }

  // ---------------------------------------------------------------- the plain triple loop

  /** Entries outside the matrix read as zero. */
  function EntryA<F>(j: Job<F>, row: nat, k: nat): F
    requires JobOk(j)
  {
    if row < j.n && k < j.n then Cell(j.n, row, k); j.a[row * j.n + k] else j.ar.zero
  }

  function EntryB<F>(j: Job<F>, k: nat, col: nat): F
    requires JobOk(j)
  {
    if k < j.n && col < j.n then Cell(j.n, k, col); j.b[k * j.n + col] else j.ar.zero
  }

  /** The first `m` products of a cell, summed from the left. */
  function Acc<F>(j: Job<F>, row: nat, col: nat, m: nat): F
    requires JobOk(j)
  {
    if m == 0 then j.ar.zero
    else j.ar.add(Acc(j, row, col, m - 1), j.ar.mul(EntryA(j, row, m - 1), EntryB(j, m - 1, col)))
  }

  /** Cell number `p` of the product, row-major. */
  function CellValue<F>(j: Job<F>, p: nat): F
    requires JobOk(j) && p < j.n * j.n
  {
    Acc(j, p / j.n, p % j.n, j.n)
  }

  lemma CellValueAt<F>(j: Job<F>, row: nat, col: nat)
    requires JobOk(j) && row < j.n && col < j.n
    ensures 0 <= row * j.n + col < j.n * j.n && CellValue(j, row * j.n + col) == Acc(j, row, col, j.n)
  {
    hide Acc;
    Cell(j.n, row, col);
    DivModUnique(row * j.n + col, j.n, row, col);
  }

  /** `matmul_naive`, thread by thread. */
  method MatmulNaive<F>(j: Job<F>) returns (c: seq<F>)
    requires JobOk(j)
    ensures |c| == j.n * j.n && forall p: nat | p < j.n * j.n :: c[p] == CellValue(j, p)
  {
    hide CellValue, Acc;
    c := [];
    for row := 0 to j.n
      invariant |c| == row * j.n <= j.n * j.n
      invariant forall p: nat | p < |c| :: c[p] == CellValue(j, p)
    {
      RowDone(row, j.n);
      for col := 0 to j.n
        invariant |c| == row * j.n + col <= j.n * j.n
        invariant forall p: nat | p < |c| :: c[p] == CellValue(j, p)
      {
        var sum := NaiveThread(j, row, col);
        CellValueAt(j, row, col);
        c := c + [sum];
      }
    }
  }

  lemma RowDone(row: nat, n: nat)
    ensures row * n + n == (row + 1) * n
    ensures row < n ==> (row + 1) * n <= n * n
  {
    MulLe(row + 1, n, n);
  }

  method NaiveThread<F>(j: Job<F>, row: nat, col: nat) returns (sum: F)
    requires JobOk(j) && row < j.n && col < j.n
    ensures sum == Acc(j, row, col, j.n)
  {
    sum := j.ar.zero;
    for k := 0 to j.n
      invariant sum == Acc(j, row, col, k)
    {
      Cell(j.n, row, k);
      Cell(j.n, k, col);
      sum := j.ar.add(sum, j.ar.mul(j.a[row * j.n + k], j.b[k * j.n + col]));
    }
  }

  // ---------------------------------------------------------------- the tiled kernel as a state machine

  /** Thread `i` is (ty, tx) = (i / 16, i % 16). Per tile it takes 18 steps: two stores, then 16 accumulations;
      after the last tile one guarded write. `pc` counts the steps it has taken. */
  datatype State<!F> = State(pc: seq<nat>, sA: seq<F>, sB: seq<F>, sum: seq<F>, c: map<(nat, nat), F>)

  predicate StateOk<F>(s: State<F>) {
    |s.pc| == |s.sA| == |s.sB| == |s.sum| == 256
  }

  function Row<F>(j: Job<F>, i: nat): nat {
    j.blockY * 16 + i / 16
  }

  function Col<F>(j: Job<F>, i: nat): nat {
    j.blockX * 16 + i % 16
  }

  /** Steps in front of the final write. */
  function End<F>(j: Job<F>): nat {
    18 * ((j.n + 15) / 16)
  }

  /** A step at `p` directly behind a barrier: the first store of a tile, its first product, the final write. */
  predicate BehindBarrier(p: nat) {
    p % 18 == 0 || p % 18 == 2
  }

  /** A thread may pass a barrier only when every thread has reached it. */
  predicate Arrived(pc: seq<nat>, p: nat) {
    forall k | 0 <= k < |pc| :: pc[k] >= p
  }

  predicate Enabled<F>(j: Job<F>, s: State<F>, i: nat) {
    StateOk(s) && i < 256 && s.pc[i] <= End(j) && (BehindBarrier(s.pc[i]) ==> Arrived(s.pc, s.pc[i]))
  }

  /** `sA[ty][k]` and `sB[k][tx]`. */
  function SlotA(i: nat, k: nat): (u: nat)
    requires i < 256 && k < 16
    ensures u < 256
  {
    i / 16 * 16 + k
  }

  function SlotB(i: nat, k: nat): (v: nat)
    requires i < 256 && k < 16
    ensures v < 256
  {
    16 * k + i % 16
  }

  function StepOf<F>(j: Job<F>, s: State<F>, i: nat): State<F>
    requires JobOk(j) && Enabled(j, s, i)
  {
    var p := s.pc[i];
    var next := s.(pc := s.pc[i := p + 1]);
    var t, o := p / 18, p % 18;
    if p == End(j) then
      if Row(j, i) < j.n && Col(j, i) < j.n then next.(c := s.c[(Row(j, i), Col(j, i)) := s.sum[i]]) else next
    else if o == 0 then next.(sA := s.sA[i := EntryA(j, Row(j, i), 16 * t + i % 16)])
    else if o == 1 then next.(sB := s.sB[i := EntryB(j, 16 * t + i / 16, Col(j, i))])
    else
      var k := o - 2;
      next.(sum := s.sum[i := j.ar.add(s.sum[i], j.ar.mul(s.sA[SlotA(i, k)], s.sB[SlotB(i, k)]))])
  }

  /** Shared memory starts with anything in it. */
  ghost predicate Initial<F>(j: Job<F>, s: State<F>) {
    StateOk(s) && (forall i | 0 <= i < 256 :: s.pc[i] == 0 && s.sum[i] == j.ar.zero) && s.c == map[]
  }

  // ---------------------------------------------------------------- the invariant

  /** The last barrier a thread with counter `p` has passed. */
  function Crossed(p: nat): nat {
    if p == 0 then 0 else 18 * ((p - 1) / 18) + (if (p - 1) % 18 >= 2 then 2 else 0)
  }

  predicate Sync(pc: seq<nat>) {
    forall i | 0 <= i < |pc| :: Arrived(pc, Crossed(pc[i]))
  }

  /** Products a thread has accumulated. */
  function Products(p: nat): nat {
    16 * (p / 18) + (if p % 18 <= 2 then 0 else p % 18 - 2)
  }

  function Tile(p: nat): nat {
    p / 18
  }

  function Capped<F>(j: Job<F>, p: nat): nat {
    if p <= End(j) then p else End(j)
  }

  /** A sum, two slots and a cell as thread `i` leaves them after `p` steps. */
  ghost predicate SumIs<F>(j: Job<F>, i: nat, p: nat, v: F)
    requires JobOk(j)
  {
    v == Acc(j, Row(j, i), Col(j, i), Products(p))
  }

  ghost predicate SlotAIs<F>(j: Job<F>, i: nat, p: nat, v: F)
    requires JobOk(j)
  {
    p > 0 ==> v == EntryA(j, Row(j, i), 16 * Tile(p - 1) + i % 16)
  }

  ghost predicate SlotBIs<F>(j: Job<F>, i: nat, p: nat, v: F)
    requires JobOk(j)
  {
    p > 1 ==> v == EntryB(j, 16 * Tile(p - 2) + i / 16, Col(j, i))
  }

  ghost predicate CellIs<F>(j: Job<F>, i: nat, p: nat, c: map<(nat, nat), F>)
    requires JobOk(j)
  {
    p > End(j) && Row(j, i) < j.n && Col(j, i) < j.n ==>
      (Row(j, i), Col(j, i)) in c && SumIs(j, i, End(j), c[(Row(j, i), Col(j, i))])
  }

  /** What thread `i` has made of its sum, its two slots and its cell. */
  ghost predicate ThreadOk<F>(j: Job<F>, s: State<F>, i: nat)
    requires JobOk(j) && StateOk(s) && i < 256
  {
    var p := Capped(j, s.pc[i]);
    && s.pc[i] <= End(j) + 1
    && SumIs(j, i, p, s.sum[i]) && SlotAIs(j, i, p, s.sA[i]) && SlotBIs(j, i, p, s.sB[i])
    && CellIs(j, i, s.pc[i], s.c)
  }

  ghost predicate Inv<F>(j: Job<F>, s: State<F>)
    requires JobOk(j)
  {
    StateOk(s) && Sync(s.pc) && forall i: nat | i < 256 :: ThreadOk(j, s, i)
  }

  lemma InitialInv<F>(j: Job<F>, s: State<F>)
    requires JobOk(j) && Initial(j, s)
    ensures Inv(j, s)
  {
    hide EntryA, EntryB, Row, Col;
    assert Products(0) == 0;
  }

  lemma CrossedNext(p: nat)
    ensures Crossed(p + 1) == (if BehindBarrier(p) then p else Crossed(p)) && Crossed(p) <= p
  {
    var t, o := p / 18, p % 18;
    assert p == 18 * t + o;
    if o > 0 { DivModUnique(p - 1, 18, t, o - 1); }
    if o == 0 && p > 0 { DivModUnique(p - 1, 18, t - 1, 17); }
  }

  lemma SyncKept(pc: seq<nat>, i: nat)
    requires Sync(pc) && i < |pc| && (BehindBarrier(pc[i]) ==> Arrived(pc, pc[i]))
    ensures Sync(pc[i := pc[i] + 1])
  {
    hide Crossed, BehindBarrier;
    var next := pc[i := pc[i] + 1];
    CrossedNext(pc[i]);
    forall k | 0 <= k < |next|
      ensures Arrived(next, Crossed(next[k]))
    {
      assert Arrived(pc, Crossed(pc[k]));
      assert Arrived(pc, Crossed(pc[i]));
      assert Arrived(pc, Crossed(next[k]));
    }
  }

  /** While one thread multiplies in tile `t`, every thread has finished both stores of that tile and none has
      started the next. */
  lemma TileStable(pc: seq<nat>, i: nat, k: nat)
    requires Sync(pc) && i < |pc| && k < |pc| && pc[i] % 18 >= 2
    requires BehindBarrier(pc[i]) ==> Arrived(pc, pc[i])
    ensures var t := pc[i] / 18; 18 * t + 2 <= pc[k] <= 18 * t + 18
  {
    hide Crossed, BehindBarrier;
    var t := pc[i] / 18;
    CrossedAt(pc[i]);
    assert Arrived(pc, Crossed(pc[i]));
    assert Arrived(pc, Crossed(pc[k]));
    if pc[k] > 18 * t + 18 { CrossedBeyond(pc[k], t + 1); }
  }

  lemma CrossedAt(p: nat)
    requires p % 18 >= 2
    ensures p % 18 == 2 ==> BehindBarrier(p)
    ensures p % 18 > 2 ==> Crossed(p) == 18 * (p / 18) + 2
  {
    if p % 18 > 2 { DivModUnique(p - 1, 18, p / 18, p % 18 - 1); }
  }

  lemma CrossedBeyond(p: nat, t: nat)
    requires p > 18 * t
    ensures Crossed(p) >= 18 * t
  {
    MulLe((p - 1) / 18 + 1, t, 18);
    assert p - 1 == 18 * ((p - 1) / 18) + (p - 1) % 18;
  }

  /** The threads that store the two slots: one in the same row of the block, one in the same column. */
  lemma SlotOwners<F>(j: Job<F>, i: nat, k: nat)
    requires i < 256 && k < 16
    ensures var u := SlotA(i, k); u < 256 && Row(j, u) == Row(j, i) && u % 16 == k
    ensures var v := SlotB(i, k); v < 256 && Col(j, v) == Col(j, i) && v / 16 == k
  {
    DivModUnique(i / 16 * 16 + k, 16, i / 16, k);
    DivModUnique(16 * k + i % 16, 16, k, i % 16);
  }

  /** The two slots thread `i` multiplies hold the entries the plain loop would read. */
  lemma SlotsFresh<F>(j: Job<F>, s: State<F>, i: nat)
    requires JobOk(j) && Inv(j, s) && Enabled(j, s, i) && s.pc[i] % 18 >= 2
    ensures s.pc[i] < End(j)
    ensures var t, k := s.pc[i] / 18, s.pc[i] % 18 - 2;
            && s.sA[SlotA(i, k)] == EntryA(j, Row(j, i), 16 * t + k)
            && s.sB[SlotB(i, k)] == EntryB(j, 16 * t + k, Col(j, i))
  {
    hide EntryA, EntryB, Acc, Sync, Arrived, BehindBarrier, Row, Col, Capped, End, SumIs, SlotAIs, SlotBIs, CellIs,
      SlotA, SlotB, JobOk;
    var p := s.pc[i];
    var t, k := p / 18, p % 18 - 2;
    EndMultiple(j, p);
    SlotOwners(j, i, k);
    var u, v := SlotA(i, k), SlotB(i, k);
    TileStable(s.pc, i, u);
    TileStable(s.pc, i, v);
    assert ThreadOk(j, s, u) && ThreadOk(j, s, v);
    SlotAHolds(j, u, s.pc[u], t, s.sA[u]);
    SlotBHolds(j, v, s.pc[v], t, s.sB[v]);
  }

  /** After its stores of tile `t`, a thread's slots hold that tile's entries. */
  lemma SlotAHolds<F>(j: Job<F>, u: nat, q: nat, t: nat, a: F)
    requires JobOk(j) && SlotAIs(j, u, Capped(j, q), a) && 18 * t + 2 <= q <= 18 * t + 18 <= End(j)
    ensures a == EntryA(j, Row(j, u), 16 * t + u % 16)
  {
    hide EntryA, Row, End, Capped, Tile;
    StoredTile(j, q, t);
  }

  lemma SlotBHolds<F>(j: Job<F>, v: nat, q: nat, t: nat, b: F)
    requires JobOk(j) && SlotBIs(j, v, Capped(j, q), b) && 18 * t + 2 <= q <= 18 * t + 18 <= End(j)
    ensures b == EntryB(j, 16 * t + v / 16, Col(j, v))
  {
    hide EntryB, Col, End, Capped, Tile;
    StoredTile(j, q, t);
  }

  lemma EndMultiple<F>(j: Job<F>, p: nat)
    ensures End(j) % 18 == 0
    ensures p <= End(j) && p % 18 >= 2 ==> p < End(j) && 18 * (p / 18) + 18 <= End(j)
  {
    var m := (j.n + 15) / 16;
    MultipleMod(m, 18);
    assert p == 18 * (p / 18) + p % 18;
    if p / 18 >= m { MulLe(m, p / 18, 18); }
    MulLe(p / 18 + 1, m, 18);
  }

  lemma StoredTile<F>(j: Job<F>, q: nat, t: nat)
    requires 18 * t + 2 <= q <= 18 * t + 18 <= End(j)
    ensures Capped(j, q) == q && Tile(q - 1) == t && Tile(q - 2) == t
  {
    DivModUnique(q - 1, 18, t, q - 1 - 18 * t);
    DivModUnique(q - 2, 18, t, q - 2 - 18 * t);
  }

  lemma ProductsNext(p: nat)
    ensures Products(p + 1) == if p % 18 >= 2 then Products(p) + 1 else Products(p)
    ensures p % 18 >= 2 ==> Products(p) == 16 * (p / 18) + (p % 18 - 2)
  {
    var t, o := p / 18, p % 18;
    if o < 17 { DivModUnique(p + 1, 18, t, o + 1); } else { DivModUnique(p + 1, 18, t + 1, 0); }
  }

  lemma StoreIndex(p: nat)
    ensures p % 18 >= 1 ==> p >= 1 && Tile(p - 1) == p / 18
    ensures p % 18 != 1 && p > 1 ==> Tile(p - 1) == Tile(p - 2)
    ensures Tile(p) == p / 18
  {
    var t, o := p / 18, p % 18;
    assert p == 18 * t + o;
    if o >= 1 { DivModUnique(p - 1, 18, t, o - 1); }
    if o >= 2 { DivModUnique(p - 2, 18, t, o - 2); }
    if o == 0 && p > 0 {
      DivModUnique(p - 1, 18, t - 1, 17);
      DivModUnique(p - 2, 18, t - 1, 16);
    }
  }

  lemma AccNext<F>(j: Job<F>, row: nat, col: nat, m: nat)
    requires JobOk(j)
    ensures Acc(j, row, col, m + 1) == j.ar.add(Acc(j, row, col, m), j.ar.mul(EntryA(j, row, m), EntryB(j, m, col)))
  {
    hide EntryA, EntryB;
  }

  lemma SumNext<F>(j: Job<F>, i: nat, p: nat, v: F)
    requires JobOk(j) && SumIs(j, i, p, v)
    ensures p % 18 < 2 ==> SumIs(j, i, p + 1, v)
    ensures p % 18 >= 2 ==>
              var at := 16 * (p / 18) + (p % 18 - 2);
              SumIs(j, i, p + 1, j.ar.add(v, j.ar.mul(EntryA(j, Row(j, i), at), EntryB(j, at, Col(j, i)))))
  {
    hide EntryA, EntryB, Row, Col, Acc, Products;
    ProductsNext(p);
    AccNext(j, Row(j, i), Col(j, i), Products(p));
  }

  lemma SlotsNext<F>(j: Job<F>, i: nat, p: nat, a: F, b: F)
    requires JobOk(j) && SlotAIs(j, i, p, a) && SlotBIs(j, i, p, b)
    ensures p % 18 == 0 ==> SlotAIs(j, i, p + 1, EntryA(j, Row(j, i), 16 * (p / 18) + i % 16))
    ensures p % 18 != 0 ==> SlotAIs(j, i, p + 1, a)
    ensures p % 18 == 1 ==> SlotBIs(j, i, p + 1, EntryB(j, 16 * (p / 18) + i / 16, Col(j, i)))
    ensures p % 18 != 1 ==> SlotBIs(j, i, p + 1, b)
  {
    hide EntryA, EntryB, Row, Col, Tile;
    StoreIndex(p);
  }

  lemma CellNext<F>(j: Job<F>, i: nat, p: nat, v: F, c: map<(nat, nat), F>)
    requires JobOk(j) && p <= End(j)
    ensures p < End(j) ==> CellIs(j, i, p + 1, c)
    ensures p == End(j) && SumIs(j, i, p, v) ==>
              CellIs(j, i, p + 1, if Row(j, i) < j.n && Col(j, i) < j.n then c[(Row(j, i), Col(j, i)) := v] else c)
  {
    hide Row, Col, Acc, Products, End;
  }

  lemma CappedNext<F>(j: Job<F>, p: nat)
    requires p <= End(j)
    ensures Capped(j, p) == p && Capped(j, p + 1) == if p < End(j) then p + 1 else p
  {
    hide End;
  }

  /** The stepping thread keeps its own promises. */
  lemma OwnKept<F>(j: Job<F>, s: State<F>, i: nat)
    requires JobOk(j) && Inv(j, s) && Enabled(j, s, i)
    ensures ThreadOk(j, StepOf(j, s, i), i)
  {
    hide EntryA, EntryB, Row, Col, Sync, Arrived, BehindBarrier, Tile, End, Capped, SumIs, SlotAIs, SlotBIs, CellIs,
      SlotA, SlotB, JobOk;
    var p := s.pc[i];
    assert ThreadOk(j, s, i);
    CappedNext(j, p);
    SumNext(j, i, p, s.sum[i]);
    SlotsNext(j, i, p, s.sA[i], s.sB[i]);
    CellNext(j, i, p, s.sum[i], s.c);
    if p % 18 >= 2 { SlotsFresh(j, s, i); }
  }

  /** A step of thread `i` leaves what the others own alone. */
  lemma OthersKept<F>(j: Job<F>, s: State<F>, i: nat, k: nat)
    requires JobOk(j) && Inv(j, s) && Enabled(j, s, i) && k < 256 && k != i
    ensures ThreadOk(j, StepOf(j, s, i), k)
  {
    hide EntryA, EntryB, Sync, Arrived, BehindBarrier, SumIs, SlotAIs, SlotBIs, Tile, Row, Col, End, Capped;
    assert ThreadOk(j, s, k);
    CellsDiffer(j, i, k);
  }

  lemma CellsDiffer<F>(j: Job<F>, i: nat, k: nat)
    requires i < 256 && k < 256 && i != k
    ensures (Row(j, i), Col(j, i)) != (Row(j, k), Col(j, k))
  {
    assert i == 16 * (i / 16) + i % 16 && k == 16 * (k / 16) + k % 16;
  }

  lemma InvKept<F>(j: Job<F>, s: State<F>, i: nat)
    requires JobOk(j) && Inv(j, s) && Enabled(j, s, i)
    ensures Inv(j, StepOf(j, s, i))
  {
    hide ThreadOk, Sync;
    SyncKept(s.pc, i);
    OwnKept(j, s, i);
    forall k: nat | k < 256
      ensures ThreadOk(j, StepOf(j, s, i), k)
    {
      if k != i { OthersKept(j, s, i, k); }
    }
  }
}
