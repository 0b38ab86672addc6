/** 64-bit arithmetic, and facts about products and remainders that several modules share. */
module Numbers {

  const TWO64: nat := 0x1_0000_0000_0000_0000

  /** Unsigned 64-bit arithmetic. */
  function Add64(a: nat, b: nat): nat {
    (a + b) % TWO64
  }

  function Mul64(a: nat, b: nat): nat {
    a * b % TWO64
  }

  /** Conversion to a 32-bit `int`, and the wrap-around of its sums. */
  function Wrap32(n: int): int {
    var m := n % 0x1_0000_0000;
    if m < 0x8000_0000 then m else m - 0x1_0000_0000
  }

  /** A product by name, so that equal factors give equal products without expanding them. */
  function Times(x: real, y: real): real {
    x * y
  }

  lemma MulLe(a: int, b: int, d: nat)
    ensures a <= b ==> a * d <= b * d
  {
  }

  /** Quotient and remainder are determined by the product form. */
  lemma DivModUnique(n: nat, d: nat, q: nat, r: nat)
    requires r < d && n == q * d + r
    ensures n / d == q && n % d == r
  {
    var q', r' := n / d, n % d;
    assert n == q' * d + r';
    MulLe(q' + 1, q, d);
    MulLe(q + 1, q', d);
  }

  lemma MultipleMod(q: nat, d: nat)
    requires d > 0
    ensures q * d % d == 0 && q * d / d == q
  {
    DivModUnique(q * d, d, q, 0);
  }

  /** Entry `i` of block `a`, when `n` blocks of `d` entries lie one behind the other. */
  lemma BlockIndex(a: nat, n: nat, i: nat, d: nat)
    requires a < n && i < d
    ensures 0 <= a * d && 0 <= a * d + i < n * d
    ensures (a * d + i) / d == a && (a * d + i) % d == i
  {
    MulLe(0, a, d);
    MulLe(a + 1, n, d);
    DivModUnique(a * d + i, d, a, i);
  }

  /** Block `a` of `n` blocks of `d` entries leaves room for its first `used` entries. */
  lemma BlockFits(a: nat, n: nat, d: nat, used: nat)
    requires a < n && used <= d
    ensures 0 <= a * d && a * d + used <= n * d
  {
    MulLe(0, a, d);
    MulLe(a + 1, n, d);
  }
}
