/** Page bookkeeping: a stack of free pages and a reference count per page. */
module PageAllocator {
  import opened Common

  // ---------------------------------------------------------------- the specification

  /** The fields of the allocator as a value. */
  datatype Pages = Pages(total: nat, free: seq<int>, refs: seq<int>)

  ghost predicate Distinct(s: seq<int>) {
    forall i, j | 0 <= i < j < |s| :: s[i] != s[j]
  }

  predicate InRange(s: Pages, p: int) {
    0 <= p < s.total
  }

  /** The free stack is duplicate-free and holds exactly the pages with no reference. */
  ghost predicate Sound(s: Pages) {
    && s.total > 0 && |s.refs| == s.total && Distinct(s.free)
    && (forall p | 0 <= p < s.total :: s.refs[p] >= 0)
    && (forall p | 0 <= p < s.total :: p in s.free <==> s.refs[p] == 0)
    && (forall p | p in s.free :: InRange(s, p))
  }

  /** Low page numbers are handed out first. */
  function Fresh(total: nat): Pages {
    Pages(total, seq(total, i requires 0 <= i < total => total - 1 - i), seq(total, _ => 0))
  }

  datatype Op = Allocate | AllocateMany(n: int) | Retain(page: int) | Release(page: int)

  /** Pages handed out, none available, a count changed, or an exception. */
  datatype Outcome = Got(pages: seq<int>) | Unavailable | Changed | Failed

  /** Pops the top of the free stack. */
  function Popped(s: Pages): Pages
    requires s.free != []
  {
    var p := s.free[|s.free| - 1];
    s.(free := s.free[..|s.free| - 1], refs := if 0 <= p < |s.refs| then s.refs[p := 1] else s.refs)
  }

  /** `n` successive single allocations. */
  function PoppedMany(s: Pages, n: nat): Pages
    requires n <= |s.free|
    ensures |PoppedMany(s, n).free| == |s.free| - n
  {
    if n == 0 then s else Popped(PoppedMany(s, n - 1))
  }

  /** The top `n` entries of the free stack, top first. */
  function Top(s: Pages, n: nat): (pages: seq<int>)
    requires n <= |s.free|
    ensures |pages| == n
  {
    seq(n, i requires 0 <= i < n => s.free[|s.free| - 1 - i])
  }

  function After(s: Pages, op: Op): Pages {
    match op
    case Allocate => if s.free == [] then s else Popped(s)
    case AllocateMany(n) => if 0 <= n <= |s.free| then PoppedMany(s, n) else s
    case Retain(p) => if 0 <= p < |s.refs| && s.refs[p] != 0 then s.(refs := s.refs[p := s.refs[p] + 1]) else s
    case Release(p) =>
      if 0 <= p < |s.refs| && s.refs[p] != 0 then
        s.(refs := s.refs[p := s.refs[p] - 1], free := if s.refs[p] == 1 then s.free + [p] else s.free)
      else s
  }

  function Answer(s: Pages, op: Op): Outcome {
    match op
    case Allocate => if s.free == [] then Unavailable else Got(Top(s, 1))
    case AllocateMany(n) => if n < 0 then Failed else if n > |s.free| then Unavailable else Got(Top(s, n))
    case Retain(p) => if 0 <= p < |s.refs| && s.refs[p] != 0 then Changed else Failed
    case Release(p) => if 0 <= p < |s.refs| && s.refs[p] != 0 then Changed else Failed
  }

  // ---------------------------------------------------------------- the class

  class Allocator {
    const total: nat
    var free: seq<int>
    var refs: seq<int>

    ghost function State(): Pages
      reads this
    {
      Pages(total, free, refs)
    }

    ghost predicate Valid()
      reads this
    {
      Sound(State())
    }

    constructor (n: nat)
      requires n > 0
      ensures State() == Fresh(n) && Valid()
    {
      total := n;
      free := [];
      refs := seq(n, _ => 0);
      new;
      var p := n - 1;
      while p >= 0
        invariant -1 <= p < n && total == n && refs == seq(n, _ => 0)
        invariant free == Fresh(n).free[..n - 1 - p]
      {
        free := free + [p];
        p := p - 1;
      }
      FreshSound(n);
    }

    /** The constructor of the original throws unless the count is positive. */
    static method Create(n: int) returns (r: Result<Allocator>)
      ensures r.Ok? <==> n > 0
      ensures r.Ok? ==> fresh(r.value) && r.value.State() == Fresh(n)
    {
      if n <= 0 {
        return Err("total_pages must be positive");
      }
      var a := new Allocator(n);
      r := Ok(a);
    }

    method FreeCount() returns (n: nat)
      ensures n == |free|
    {
      n := |free|;
    }

    method Allocate() returns (r: Option<int>)
      requires Valid()
      modifies this
      ensures Valid() && State() == After(old(State()), Op.Allocate)
      ensures match Answer(old(State()), Op.Allocate) case Got(pages) => r == Some(pages[0]) case _ => r == None
    {
      AfterSound(State(), Op.Allocate);
      if free == [] {
        return None;
      }
      var p := free[|free| - 1];
      assert p in free;
      free := free[..|free| - 1];
      refs := refs[p := 1];
      r := Some(p);
    }

    /** All or nothing. */
    method AllocateMany(n: int) returns (r: Result<Option<seq<int>>>)
      requires Valid()
      modifies this
      ensures Valid() && State() == After(old(State()), Op.AllocateMany(n))
      ensures match Answer(old(State()), Op.AllocateMany(n))
              case Got(pages) => r == Ok(Some(pages))
              case Unavailable => r == Ok(None)
              case _ => r.Err?
    {
      hide Sound, Fresh;
      AfterSound(State(), Op.AllocateMany(n));
      if n < 0 {
        return Err("negative page count");
      }
      if |free| < n {
        return Ok(None);
      }
      ghost var s := State();
      var pages: seq<int> := [];
      for i := 0 to n
        invariant Sound(s) && State() == PoppedMany(s, i) && pages == Top(s, i)
      {
        PoppedManySpec(s, i);
        TopInRange(s, i);
        pages := pages + [free[|free| - 1]];
        free := free[..|free| - 1];
        refs := refs[pages[i] := 1];
      }
      r := Ok(Some(pages));
    }

    method Retain(page: int) returns (r: Result<()>)
      requires Valid()
      modifies this
      ensures Valid() && State() == After(old(State()), Op.Retain(page))
      ensures r.Ok? <==> Answer(old(State()), Op.Retain(page)) == Changed
    {
      AfterSound(State(), Op.Retain(page));
      if page < 0 || page >= total {
        return Err("page id out of range");
      }
      if refs[page] == 0 {
        return Err("retain of free page");
      }
      refs := refs[page := refs[page] + 1];
      r := Ok(());
    }

    method Release(page: int) returns (r: Result<()>)
      requires Valid()
      modifies this
      ensures Valid() && State() == After(old(State()), Op.Release(page))
      ensures r.Ok? <==> Answer(old(State()), Op.Release(page)) == Changed
    {
      AfterSound(State(), Op.Release(page));
      if page < 0 || page >= total {
        return Err("page id out of range");
      }
      if refs[page] == 0 {
        return Err("double release");
      }
      refs := refs[page := refs[page] - 1];
      if refs[page] == 0 { free := free + [page]; }
      r := Ok(());
    }

    method Refcount(page: int) returns (r: Result<int>)
      requires Valid()
      ensures r.Ok? <==> 0 <= page < total
      ensures r.Ok? ==> r.value == refs[page]
    {
      if page < 0 || page >= total {
        return Err("page id out of range");
      }
      r := Ok(refs[page]);
    }
  }

  // ---------------------------------------------------------------- soundness of every step

  lemma FreshSound(n: nat)
    requires n > 0
    ensures Sound(Fresh(n))
  {
    var s := Fresh(n);
    forall p | 0 <= p < n
      ensures p in s.free
    {
      assert s.free[n - 1 - p] == p;
    }
  }

  lemma PopMembers(free: seq<int>)
    requires free != [] && Distinct(free)
    ensures var n := |free| - 1;
            Distinct(free[..n]) && forall q :: q in free[..n] <==> q in free && q != free[n]
  {
    var n := |free| - 1;
    assert free == free[..n] + [free[n]];
  }

  lemma PoppedSound(s: Pages)
    requires Sound(s) && s.free != []
    ensures Sound(Popped(s)) && 0 <= s.free[|s.free| - 1] < s.total && s.refs[s.free[|s.free| - 1]] == 0
  {
    hide Distinct;
    PopMembers(s.free);
    assert s.free[|s.free| - 1] in s.free;
  }

  lemma {:induction false} PoppedManySound(s: Pages, n: nat)
    requires Sound(s) && n <= |s.free|
    ensures Sound(PoppedMany(s, n))
  {
    hide Sound, Popped;
    if n > 0 {
      PoppedManySound(s, n - 1);
      PoppedSound(PoppedMany(s, n - 1));
    }
  }

  /** A successful `allocate_many(n)` hands out what `n` successive allocations hand out, takes exactly those
      pages off the stack and gives each of them one reference. */
  lemma {:induction false} PoppedManySpec(s: Pages, n: nat)
    requires Sound(s) && n <= |s.free|
    ensures var t := PoppedMany(s, n);
            && t.total == s.total && t.free == s.free[..|s.free| - n] && |t.refs| == |s.refs|
            && forall p | 0 <= p < |s.refs| :: t.refs[p] == if p in s.free[|s.free| - n..] then 1 else s.refs[p]
  {
    if n > 0 {
      PoppedManySpec(s, n - 1);
      var m := |s.free| - n;
      assert s.free[m..] == [s.free[m]] + s.free[m + 1..];
      assert PoppedMany(s, n - 1).free[m] == s.free[m];
      assert s.free[..m + 1][..m] == s.free[..m];
    }
  }

  lemma TopInRange(s: Pages, i: nat)
    requires Sound(s) && i < |s.free|
    ensures 0 <= s.free[|s.free| - 1 - i] < |s.refs|
  {
    assert s.free[|s.free| - 1 - i] in s.free;
  }

  lemma ReleaseSound(s: Pages, p: int)
    requires Sound(s) && 0 <= p < |s.refs| && s.refs[p] == 1
    ensures Sound(After(s, Release(p)))
  {
    var t := After(s, Release(p));
    assert p !in s.free;
    forall q | 0 <= q < s.total
      ensures q in t.free <==> q == p || q in s.free
    {
      assert p in t.free by { assert t.free[|s.free|] == p; }
    }
  }

  lemma AfterSound(s: Pages, op: Op)
    requires Sound(s)
    ensures Sound(After(s, op)) && After(s, op).total == s.total
  {
    match op
    case Allocate => if s.free != [] { PoppedSound(s); }
    case AllocateMany(n) => if 0 <= n <= |s.free| { PoppedManySound(s, n); PoppedManySpec(s, n); }
    case Retain(p) =>
    case Release(p) => if 0 <= p < |s.refs| && s.refs[p] == 1 { ReleaseSound(s, p); }
  }

  /** A call that hands out nothing and changes no count leaves the allocator as it was. */
  lemma FailureChangesNothing(s: Pages, op: Op)
    ensures Answer(s, op) == Failed || Answer(s, op) == Unavailable ==> After(s, op) == s
  {
  }

  // ---------------------------------------------------------------- conservation over every run

  /** The references callers hold after one more call. */
  function Holds(h: multiset<int>, s: Pages, op: Op): multiset<int> {
    match Answer(s, op)
    case Got(pages) => h + multiset(pages)
    case Changed => if op.Retain? then h + multiset{op.page} else if op.Release? then h - multiset{op.page} else h
    case _ => h
  }

  /** Every count is the number of references held. */
  predicate Counted(s: Pages, h: multiset<int>) {
    && (forall p | 0 <= p < |s.refs| :: s.refs[p] == h[p])
    && forall p | p in h :: 0 <= p < |s.refs|
  }

  lemma TopContents(s: Pages, n: nat, p: int)
    requires Sound(s) && n <= |s.free|
    ensures multiset(Top(s, n))[p] == if p in s.free[|s.free| - n..] then 1 else 0
  {
    hide Sound, Top;
    TopDistinct(s, n);
    TopMember(s, n, p);
    if p in Top(s, n) { OnlyOnce(Top(s, n), p); }
  }

  lemma TopMember(s: Pages, n: nat, p: int)
    requires n <= |s.free|
    ensures p in Top(s, n) <==> p in s.free[|s.free| - n..]
  {
    if p in s.free[|s.free| - n..] {
      var i :| 0 <= i < n && s.free[|s.free| - n..][i] == p;
      assert Top(s, n)[n - 1 - i] == p;
    }
    if p in Top(s, n) {
      var i :| 0 <= i < n && Top(s, n)[i] == p;
      assert s.free[|s.free| - n..][n - 1 - i] == p;
    }
  }

  lemma TopDistinct(s: Pages, n: nat)
    requires Sound(s) && n <= |s.free|
    ensures Distinct(Top(s, n))
  {
  }

  lemma {:induction false} OnlyOnce(s: seq<int>, p: int)
    requires Distinct(s) && p in s
    ensures multiset(s)[p] == 1
  {
    var n := |s| - 1;
    assert s == s[..n] + [s[n]];
    if p in s[..n] {
      OnlyOnce(s[..n], p);
    }
  }

  lemma HoldsKept(s: Pages, h: multiset<int>, op: Op)
    requires Sound(s) && Counted(s, h)
    ensures Counted(After(s, op), Holds(h, s, op))
  {
    hide Top, Sound, Counted, PoppedMany, Popped;
    match op
    case Allocate => if s.free != [] { GotCounted(s, h, 1); OneIsMany(s); }
    case AllocateMany(n) => if 0 <= n <= |s.free| { GotCounted(s, h, n); }
    case Retain(p) => OneCounted(s, h, p);
    case Release(p) => OneCounted(s, h, p);
  }

  lemma OneCounted(s: Pages, h: multiset<int>, p: int)
    requires Sound(s) && Counted(s, h)
    ensures Counted(After(s, Retain(p)), Holds(h, s, Retain(p)))
    ensures Counted(After(s, Release(p)), Holds(h, s, Release(p)))
  {
    hide Distinct;
  }

  lemma OneIsMany(s: Pages)
    requires s.free != []
    ensures PoppedMany(s, 1) == Popped(s)
  {
    assert PoppedMany(s, 0) == s;
  }

  lemma GotCounted(s: Pages, h: multiset<int>, n: nat)
    requires Sound(s) && Counted(s, h) && n <= |s.free|
    ensures Counted(PoppedMany(s, n), h + multiset(Top(s, n)))
  {
    hide Top, PoppedMany;
    PoppedManySpec(s, n);
    var t, k := PoppedMany(s, n), h + multiset(Top(s, n));
    forall p | 0 <= p < |s.refs|
      ensures t.refs[p] == k[p]
    {
      TopContents(s, n, p);
      if p in s.free[|s.free| - n..] { FromSuffix(s, n, p); }
    }
    forall p | p in k
      ensures 0 <= p < |s.refs|
    {
      TopContents(s, n, p);
      if p in s.free[|s.free| - n..] { FromSuffix(s, n, p); }
    }
  }

  lemma FromSuffix(s: Pages, n: nat, p: int)
    requires Sound(s) && n <= |s.free| && p in s.free[|s.free| - n..]
    ensures 0 <= p < |s.refs| && s.refs[p] == 0
  {
    assert p in s.free;
  }

  function Run(s: Pages, ops: seq<Op>): Pages
    decreases ops
  {
    if ops == [] then s else Run(After(s, ops[0]), ops[1..])
  }

  function RunHolds(h: multiset<int>, s: Pages, ops: seq<Op>): multiset<int>
    decreases ops
  {
    if ops == [] then h else RunHolds(Holds(h, s, ops[0]), After(s, ops[0]), ops[1..])
  }

  lemma {:induction false} RunKeeps(s: Pages, h: multiset<int>, ops: seq<Op>)
    requires Sound(s) && Counted(s, h)
    ensures Sound(Run(s, ops)) && Counted(Run(s, ops), RunHolds(h, s, ops)) && Run(s, ops).total == s.total
    decreases ops
  {
    hide Sound, Counted, After, Holds;
    if ops != [] {
      AfterSound(s, ops[0]);
      HoldsKept(s, h, ops[0]);
      RunKeeps(After(s, ops[0]), Holds(h, s, ops[0]), ops[1..]);
    }
  }

  function HeldPages(s: Pages): set<int>
    requires |s.refs| == s.total
  {
    set p | 0 <= p < s.total && s.refs[p] > 0
  }

  lemma {:induction false} Cardinality(s: seq<int>)
    requires Distinct(s)
    ensures |set p | p in s| == |s|
  {
    if s != [] {
      var n := |s| - 1;
      assert s == s[..n] + [s[n]];
      Cardinality(s[..n]);
      assert (set p | p in s) == (set p | p in s[..n]) + {s[n]};
      assert s[n] !in s[..n];
    }
  }

  function Range(n: nat): (r: set<int>)
    ensures |r| == n && forall p :: p in r <==> 0 <= p < n
  {
    if n == 0 then {} else Range(n - 1) + {n - 1}
  }

  lemma FreePlusHeld(s: Pages)
    requires Sound(s)
    ensures |s.free| + |HeldPages(s)| == s.total
  {
    var free := set p | p in s.free;
    Cardinality(s.free);
    assert free + HeldPages(s) == Range(s.total);
    assert free * HeldPages(s) == {};
  }

  /** Over every run from a fresh allocator: the free stack is sound, every count equals the references handed out
      and not yet given back, and free and held pages make up the whole. */
  lemma Conservation(total: nat, ops: seq<Op>)
    requires total > 0
    ensures var s := Run(Fresh(total), ops); var h := RunHolds(multiset{}, Fresh(total), ops);
            && Sound(s) && s.total == total && |s.free| + |HeldPages(s)| == total
            && forall p | 0 <= p < total :: s.refs[p] == h[p] && (p in s.free <==> h[p] == 0)
  {
    hide Run, RunHolds;
    FreshSound(total);
    RunKeeps(Fresh(total), multiset{}, ops);
    FreePlusHeld(Run(Fresh(total), ops));
  }

  // ---------------------------------------------------------------- many at once, one by one

  function Singles(n: nat): (ops: seq<Op>)
    ensures |ops| == n
  {
    seq(n, _ => Allocate)
  }

  lemma {:induction false} PoppedFirst(s: Pages, n: nat)
    requires 0 < n <= |s.free|
    ensures PoppedMany(Popped(s), n - 1) == PoppedMany(s, n)
  {
    hide Popped;
    PoppedLength(s);
    if n > 1 {
      PoppedFirst(s, n - 1);
    } else {
      OneIsMany(s);
    }
  }

  lemma PoppedLength(s: Pages)
    requires s.free != []
    ensures |Popped(s).free| == |s.free| - 1
  {
  }

  lemma {:induction false} RunOfSingles(s: Pages, n: nat)
    requires n <= |s.free|
    ensures Run(s, Singles(n)) == PoppedMany(s, n)
    decreases n
  {
    hide Popped;
    if n > 0 {
      assert Singles(n)[1..] == Singles(n - 1);
      PoppedLength(s);
      RunOfSingles(Popped(s), n - 1);
      PoppedFirst(s, n);
    }
  }

  /** A successful `allocate_many(n)` is `n` successive `allocate` calls: it leaves the same state, and the pages it
      returns are theirs, in order. */
  lemma ManyIsSuccessive(s: Pages, n: nat)
    requires Sound(s) && n <= |s.free|
    ensures After(s, AllocateMany(n)) == Run(s, Singles(n)) && Answer(s, AllocateMany(n)).Got?
    ensures forall i: nat | i < n ::
              Answer(Run(s, Singles(i)), Allocate) == Got([Answer(s, AllocateMany(n)).pages[i]])
  {
    hide Sound, Run, PoppedMany;
    RunOfSingles(s, n);
    forall i: nat | i < n
      ensures Answer(Run(s, Singles(i)), Allocate) == Got([Answer(s, AllocateMany(n)).pages[i]])
    {
      RunOfSingles(s, i);
      PoppedManySpec(s, i);
      SingleTop(PoppedMany(s, i));
    }
  }

  lemma SingleTop(s: Pages)
    requires s.free != []
    ensures Answer(s, Allocate) == Got([s.free[|s.free| - 1]])
  {
  }

  /** A fresh allocator hands out page 0, then page 1, and so on. */
  lemma FreshInOrder(total: nat, i: nat)
    requires i < total
    ensures Answer(Run(Fresh(total), Singles(i)), Allocate) == Got([i])
  {
    hide Run;
    FreshSound(total);
    ManyIsSuccessive(Fresh(total), total);
    assert Answer(Fresh(total), AllocateMany(total)).pages[i] == i;
  }

  /** The page freed last is handed out next. */
  lemma LastFreedFirst(s: Pages, p: int)
    requires Sound(s) && 0 <= p < s.total && s.refs[p] == 1
    ensures Answer(After(s, Release(p)), Allocate) == Got([p])
    ensures After(After(s, Release(p)), Allocate) == s
  {
    SingleTop(After(s, Release(p)));
    assert (s.free + [p])[..|s.free|] == s.free;
    assert s.refs[p := 0][p := 1] == s.refs;
  }
}
