/** RT_ALIGN and the little modular arithmetic the allocators need (include/rtdef.h). */
module Align {

  lemma MulGrows(k: int, a: int)
    requires 0 < a
    ensures k >= 1 ==> k * a >= a
    ensures k <= -1 ==> k * a <= -a
  {
    if k >= 1 {
      assert (k - 1) * a >= 0;
    } else if k <= -1 {
      assert (k + 1) * a <= 0;
    }
  }

  lemma Product(m: int, n: int, a: nat)
    requires m <= n
    ensures m * a <= n * a
  {
    assert (n - m) * a == n * a - m * a;
    assert (n - m) * a >= 0;
  }

  /** Quotient and remainder are determined by the division equation. */
  lemma DivModUnique(x: int, a: int, q: int, r: int)
    requires 0 <= r < a && x == q * a + r
    ensures x / a == q && x % a == r
  {
    var q', r' := x / a, x % a;
    assert x == q' * a + r';
    assert (q - q') * a == r' - r;
    MulGrows(q - q', a);
  }

  predicate Multiple(x: int, a: int) { 0 < a && x % a == 0 }

  lemma MulMod(q: int, a: int)
    requires 0 < a
    ensures Multiple(q * a, a)
  {
    DivModUnique(q * a, a, q, 0);
  }

  lemma AddMod(x: int, y: int, a: int)
    requires Multiple(x, a) && Multiple(y, a)
    ensures Multiple(x + y, a) && Multiple(x - y, a)
  {
    var p, q := x / a, y / a;
    assert x == p * a && y == q * a;
    assert x + y == (p + q) * a && x - y == (p - q) * a;
    MulMod(p + q, a);
    MulMod(p - q, a);
  }

  /** RT_ALIGN: the least multiple of a that is at least n. */
  function AlignUp(n: nat, a: nat): (r: nat)
    requires 0 < a
    ensures n <= r < n + a && Multiple(r, a)
    ensures n == 0 ==> r == 0
  {
    var q := (n + a - 1) / a;
    MulMod(q, a);
    assert n + a - 1 == q * a + (n + a - 1) % a;
    q * a
  }

  /** An aligned number aligns to itself. */
  lemma AlignUpFixed(n: nat, a: nat)
    requires Multiple(n, a)
    ensures AlignUp(n, a) == n
  {
    var r := AlignUp(n, a);
    AddMod(r, n, a);
    DivModUnique(r - n, a, 0, r - n);
  }

  /** AlignUp never skips past a multiple: r is the least multiple of a not below n. */
  lemma AlignUpLeast(n: nat, a: nat, m: nat)
    requires n <= m && Multiple(m, a)
    ensures AlignUp(n, a) <= m
  {
    var r := AlignUp(n, a);
    AddMod(r, m, a);
    if m < r {
      DivModUnique(r - m, a, 0, r - m);
      assert false;
    }
  }

  /** RT_ALIGN_DOWN: the greatest multiple of a that is at most n. */
  function AlignDown(n: nat, a: nat): (r: nat)
    requires 0 < a
    ensures r <= n < r + a && Multiple(r, a)
  {
    MulMod(n / a, a);
    n / a * a
  }

  /** Rounding down goes below no multiple. */
  lemma AlignDownMost(n: nat, a: nat, m: nat)
    requires m <= n && Multiple(m, a)
    ensures m <= AlignDown(n, a)
  {
    var r := AlignDown(n, a);
    AddMod(r, m, a);
    if r < m {
      DivModUnique(m - r, a, 0, m - r);
      AddMod(m, r, a);
      assert false;
    }
  }
}
