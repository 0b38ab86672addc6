/** Whole runs of the tiled kernel: no race, no deadlock, and the plain product under every schedule. */
module TiledRuns {
  import opened Numbers
  import opened TiledMatmul

  // ---------------------------------------------------------------- races and deadlock

  /** Shared slots a step at `p` writes and reads: slots of `sA` are 0 to 255, slots of `sB` follow. */
  function Writes<F>(j: Job<F>, i: nat, p: nat): set<nat> {
    if p >= End(j) then {} else if p % 18 == 0 then {i} else if p % 18 == 1 then {256 + i} else {}
  }

  function Reads<F>(j: Job<F>, i: nat, p: nat): set<nat>
    requires i < 256
  {
    if p >= End(j) || p % 18 < 2 then {} else {SlotA(i, p % 18 - 2), 256 + SlotB(i, p % 18 - 2)}
  }

  /** Two steps lie between the same pair of barriers. */
  predicate SamePhase(p: nat, q: nat) {
    p / 18 == q / 18 && (p % 18 < 2 <==> q % 18 < 2)
  }

  /** Two threads that can both step are in the same phase, and in one phase no slot is written by one thread and
      read or written by another. */
  lemma NoRace<F>(j: Job<F>, s: State<F>, i: nat, k: nat)
    requires JobOk(j) && Inv(j, s) && Enabled(j, s, i) && Enabled(j, s, k) && i != k
    ensures SamePhase(s.pc[i], s.pc[k])
    ensures Writes(j, i, s.pc[i]) * (Reads(j, k, s.pc[k]) + Writes(j, k, s.pc[k])) == {}
  {
    hide ThreadOk, EntryA, EntryB, Row, Col;
    PhasesMeet(s.pc, i, k);
    PhasesMeet(s.pc, k, i);
  }

  lemma PhasesMeet(pc: seq<nat>, i: nat, k: nat)
    requires Sync(pc) && i < |pc| && k < |pc|
    requires BehindBarrier(pc[i]) ==> Arrived(pc, pc[i])
    requires BehindBarrier(pc[k]) ==> Arrived(pc, pc[k])
    ensures pc[k] >= PhaseStart(pc[i])
  {
    hide Crossed, BehindBarrier;
    StartCrossed(pc[i]);
    assert Arrived(pc, Crossed(pc[i]));
  }

  /** Where the phase of the next step begins. */
  function PhaseStart(p: nat): nat {
    18 * (p / 18) + (if p % 18 < 2 then 0 else 2)
  }

  lemma StartCrossed(p: nat)
    ensures if BehindBarrier(p) then PhaseStart(p) == p else PhaseStart(p) == Crossed(p)
  {
    var t, o := p / 18, p % 18;
    assert p == 18 * t + o;
    if o > 0 { DivModUnique(p - 1, 18, t, o - 1); }
  }

  /** Until every thread is done, some thread can step. */
  lemma NotStuck<F>(j: Job<F>, s: State<F>, i: nat)
    requires JobOk(j) && Inv(j, s) && i < 256 && s.pc[i] <= End(j)
    ensures exists k: nat :: Enabled(j, s, k)
  {
    hide ThreadOk, BehindBarrier, Sync;
    var k := Least(s.pc);
    assert Enabled(j, s, k);
  }

  lemma {:induction false} Least(pc: seq<nat>) returns (k: nat)
    requires pc != []
    ensures k < |pc| && forall i | 0 <= i < |pc| :: pc[k] <= pc[i]
  {
    if |pc| == 1 { return 0; }
    k := Least(pc[..|pc| - 1]);
    assert forall i | 0 <= i < |pc| - 1 :: pc[..|pc| - 1][i] == pc[i];
    if pc[|pc| - 1] < pc[k] { k := |pc| - 1; }
  }

  // ---------------------------------------------------------------- the result

  /** A run under any schedule. */
  ghost predicate Runs<F>(j: Job<F>, states: seq<State<F>>, schedule: seq<nat>)
    requires JobOk(j)
  {
    && |states| == |schedule| + 1 && Initial(j, states[0])
    && forall m: nat | m < |schedule| :: Follows(j, states, schedule, m)
  }

  ghost predicate Follows<F>(j: Job<F>, states: seq<State<F>>, schedule: seq<nat>, m: nat)
    requires JobOk(j) && |states| == |schedule| + 1 && m < |schedule|
  {
    Enabled(j, states[m], schedule[m]) && states[m + 1] == StepOf(j, states[m], schedule[m])
  }

  lemma {:induction false} RunInv<F>(j: Job<F>, states: seq<State<F>>, schedule: seq<nat>, m: nat)
    requires JobOk(j) && Runs(j, states, schedule) && m < |states|
    ensures Inv(j, states[m])
    decreases m
  {
    hide Inv, Enabled, StepOf, Initial;
    if m == 0 {
      InitialInv(j, states[0]);
    } else {
      RunInv(j, states, schedule, m - 1);
      assert Follows(j, states, schedule, m - 1);
      InvKept(j, states[m - 1], schedule[m - 1]);
    }
  }

  /** On the values in `clean`, which sums starting from zero never leave, adding a product of two zeros changes
      nothing. In IEEE arithmetic `clean` is "anything but minus zero". */
  ghost predicate PaddingLaw<F(!new)>(ar: Arith<F>, clean: F -> bool) {
    && clean(ar.zero)
    && (forall s: F, x: F | clean(s) :: clean(ar.add(s, x)))
    && forall s: F | clean(s) :: ar.add(s, ar.mul(ar.zero, ar.zero)) == s
  }

  lemma AccClean<F(!new)>(j: Job<F>, clean: F -> bool, row: nat, col: nat, m: nat)
    requires JobOk(j) && PaddingLaw(j.ar, clean)
    ensures clean(Acc(j, row, col, m))
  {
    hide EntryA, EntryB;
    if m > 0 { AccClean(j, clean, row, col, m - 1); }
  }

  lemma {:induction false} PaddingAddsNothing<F(!new)>(j: Job<F>, clean: F -> bool, row: nat, col: nat, m: nat)
    requires JobOk(j) && PaddingLaw(j.ar, clean) && m >= j.n
    ensures Acc(j, row, col, m) == Acc(j, row, col, j.n)
    decreases m
  {
    if m > j.n {
      PaddingAddsNothing(j, clean, row, col, m - 1);
      AccClean(j, clean, row, col, j.n);
      assert EntryA(j, row, m - 1) == j.ar.zero && EntryB(j, m - 1, col) == j.ar.zero;
    }
  }

  lemma ProductsAtEnd<F>(j: Job<F>)
    ensures Products(End(j)) == 16 * ((j.n + 15) / 16) >= j.n
    ensures j.n % 16 == 0 ==> Products(End(j)) == j.n
  {
    MultipleMod((j.n + 15) / 16, 18);
  }

  /** For every size and every schedule: what a finished thread wrote is what the plain loop computes, bit for bit
      when the size is a multiple of 16, and for ragged sizes when zero padding adds nothing. */
  lemma TiledIsNaive<F(!new)>(j: Job<F>, clean: F -> bool, states: seq<State<F>>, schedule: seq<nat>, m: nat, i: nat)
    requires JobOk(j) && Runs(j, states, schedule) && m < |states| && i < 256
    requires j.n % 16 == 0 || PaddingLaw(j.ar, clean)
    requires |states[m].pc| == 256 && states[m].pc[i] > End(j)
    requires Row(j, i) < j.n && Col(j, i) < j.n
    ensures (Row(j, i), Col(j, i)) in states[m].c
    ensures states[m].c[(Row(j, i), Col(j, i))] == Acc(j, Row(j, i), Col(j, i), j.n)
  {
    hide Runs, Row, Col, Acc, EntryA, EntryB, Sync, PaddingLaw, Products;
    RunInv(j, states, schedule, m);
    assert ThreadOk(j, states[m], i);
    ProductsAtEnd(j);
    if j.n % 16 != 0 { PaddingAddsNothing(j, clean, Row(j, i), Col(j, i), Products(End(j))); }
  }
}
