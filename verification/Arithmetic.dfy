/** The few facts about division that ring indices and multiply-shift draws rest on. */
module Arithmetic {

  lemma Multiples(n: int, k: int)
    requires n > 0
    ensures k >= 1 ==> n * k >= n
    ensures k <= -1 ==> n * k <= -n
  {
    if k >= 1 {
      assert n * k == n + n * (k - 1);
    } else if k <= -1 {
      assert n * k == -n + n * (k + 1);
    }
  }

  lemma WrapsOnce(x: nat, n: nat)
    requires x < 2 * n
    ensures x % n == if x < n then x else x - n
  {
    if x >= n {
      assert x / n == 1;
    }
  }

  /** Numbers less than `n` apart share a residue only when they are equal. */
  lemma OnePerResidue(a: nat, b: nat, n: nat)
    requires n > 0 && a % n == b % n && a < b + n && b < a + n
    ensures a == b
  {
    var x, y := a / n, b / n;
    assert a - b == n * (x - y);
    Multiples(n, x - y);
  }

  lemma QuotientIs(n: int, b: int, q: int, r: int)
    requires b > 0 && n == b * q + r && 0 <= r < b
    ensures n / b == q && n % b == r
  {
    var x := n / b - q;
    assert b * x == r - n % b;
    Multiples(b, x);
  }
}
