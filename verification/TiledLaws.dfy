/** The matrix product over the reals: multiplying by the identity, from either side, changes nothing. */
module TiledLaws {
  import opened Numbers
  import opened TiledMatmul
  import opened TiledRuns

  const REALS := Arith(0.0, (x: real, y: real) => x + y, (x: real, y: real) => x * y)

  predicate IsIdentity(m: seq<real>, n: nat) {
    |m| == n * n && forall r: nat, c: nat | r < n && c < n :: Unit(m, n, r, c)
  }

  predicate Unit(m: seq<real>, n: nat, r: nat, c: nat)
    requires |m| == n * n && r < n && c < n
  {
    Cell(n, r, c);
    m[r * n + c] == if r == c then 1.0 else 0.0
  }

  lemma EntriesInside(j: Job<real>, r: nat, c: nat)
    requires JobOk(j) && r < j.n && c < j.n
    ensures 0 <= r * j.n + c < j.n * j.n
    ensures EntryA(j, r, c) == j.a[r * j.n + c] && EntryB(j, r, c) == j.b[r * j.n + c]
    ensures IsIdentity(j.a, j.n) ==> EntryA(j, r, c) == if r == c then 1.0 else 0.0
    ensures IsIdentity(j.b, j.n) ==> EntryB(j, r, c) == if r == c then 1.0 else 0.0
  {
    Cell(j.n, r, c);
    if IsIdentity(j.a, j.n) { assert Unit(j.a, j.n, r, c); }
    if IsIdentity(j.b, j.n) { assert Unit(j.b, j.n, r, c); }
  }

  lemma {:induction false} RightIdentity(j: Job<real>, row: nat, col: nat, m: nat)
    requires JobOk(j) && j.ar == REALS && IsIdentity(j.b, j.n) && row < j.n && col < j.n && m <= j.n
    ensures Acc(j, row, col, m) == if col < m then EntryA(j, row, col) else 0.0
  {
    hide EntryA, EntryB, IsIdentity;
    if m > 0 {
      RightIdentity(j, row, col, m - 1);
      EntriesInside(j, m - 1, col);
    }
  }

  lemma {:induction false} LeftIdentity(j: Job<real>, row: nat, col: nat, m: nat)
    requires JobOk(j) && j.ar == REALS && IsIdentity(j.a, j.n) && row < j.n && col < j.n && m <= j.n
    ensures Acc(j, row, col, m) == if row < m then EntryB(j, row, col) else 0.0
  {
    hide EntryA, EntryB, IsIdentity;
    if m > 0 {
      LeftIdentity(j, row, col, m - 1);
      EntriesInside(j, row, m - 1);
    }
  }

  lemma SplitCell(n: nat, p: nat) returns (row: nat, col: nat)
    requires p < n * n
    ensures row < n && col < n && p == row * n + col
  {
    row, col := p / n, p % n;
    MulLe(n, row, n);
  }

  /** A I = A and I B = B, entry for entry of the row-major arrays. */
  lemma IdentityLaws(j: Job<real>, p: nat)
    requires JobOk(j) && j.ar == REALS && p < j.n * j.n
    ensures IsIdentity(j.b, j.n) ==> CellValue(j, p) == j.a[p]
    ensures IsIdentity(j.a, j.n) ==> CellValue(j, p) == j.b[p]
  {
    hide EntryA, EntryB, IsIdentity, Acc, CellValue;
    var row, col := SplitCell(j.n, p);
    CellValueAt(j, row, col);
    EntriesInside(j, row, col);
    if IsIdentity(j.b, j.n) { RightIdentity(j, row, col, j.n); }
    if IsIdentity(j.a, j.n) { LeftIdentity(j, row, col, j.n); }
  }

  /** Zero padding adds nothing over the reals, so the tiled kernel computes the plain product for every size. */
  lemma RealsPad()
    ensures PaddingLaw(REALS, (x: real) => true)
  {
  }
}
