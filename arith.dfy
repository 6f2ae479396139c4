/** Facts about Euclidean division that the layouts of the model (aligned sizes,
    pitched rows, interleaved vertices) are computed with. */
module Arith {

  lemma {:induction false} MulAtLeast(x: int, d: int)
    requires x >= 1 && d > 0
    ensures x * d >= d
    decreases x
  {
    if x > 1 {
      MulAtLeast(x - 1, d);
      assert x * d == (x - 1) * d + d;
    }
  }

  /** `n == k * d + r` with `0 <= r < d` pins down the quotient and the remainder. */
  lemma DivModUnique(n: int, d: int, k: int, r: int)
    requires d > 0 && 0 <= r < d && n == k * d + r
    ensures n / d == k && n % d == r
  {
    var q, m := n / d, n % d;
    assert n == q * d + m && 0 <= m < d;
    assert (q - k) * d == r - m;
    if q - k >= 1 {
      MulAtLeast(q - k, d);
    } else if k - q >= 1 {
      MulAtLeast(k - q, d);
    }
  }

  lemma MulMonotone(a: nat, b: nat, w: nat)
    requires a <= b
    ensures a * w <= b * w
  {
    if a < b && w > 0 {
      MulAtLeast(b - a, w);
      assert (b - a) * w == b * w - a * w;
    }
  }

  lemma MultipleMod(q: int, d: int)
    requires d > 0
    ensures (q * d) % d == 0
  {
    DivModUnique(q * d, d, q, 0);
  }

  lemma DivisionBounds(n: nat, d: nat)
    requires d > 0
    ensures n - d < (n / d) * d <= n
  {
    assert n == (n / d) * d + n % d;
  }

  lemma SumOfMultiples(a: nat, b: nat, d: nat)
    requires d > 0 && a % d == 0 && b % d == 0
    ensures (a + b) % d == 0
  {
    assert a == (a / d) * d;
    assert b == (b / d) * d;
    assert a + b == (a / d + b / d) * d;
    MultipleMod(a / d + b / d, d);
  }

  /** Row `i` of a table of `n` rows of width `w` ends inside the table. */
  lemma MulIndexBound(i: nat, n: nat, w: nat, j: nat)
    requires i < n && j < w
    ensures i * w + j < n * w
  {
    MulAtLeast(n - i, w);
    assert n * w - i * w == (n - i) * w;
  }
}
