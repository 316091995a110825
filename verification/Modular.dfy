/** Positions modulo the size of a block, as the wait-free buffer and the round robin
    of the accept service count them.
  */
module Modular {

  lemma Times(d: int, n: int)
    requires n > 0
    ensures d >= 1 ==> d * n >= n
    ensures d <= -1 ==> d * n <= -n
    ensures d == 0 ==> d * n == 0
  {
  }

  lemma Quotient(q: int, r: nat, n: nat, m: nat)
    requires r < n && m == q * n + r
    ensures m % n == r
  {
    var e := m / n - q;
    assert m / n * n - q * n == e * n;
    Times(e, n);
  }

  /** Within one lap, equal indices are equal positions. */
  lemma SameIndex(a: nat, b: nat, n: nat)
    requires n > 0 && a <= b
    ensures b < a + n ==> (a % n == b % n <==> a == b)
  {
    var d := b / n - a / n;
    assert b / n * n - a / n * n == d * n;
    Times(d, n);
  }

  lemma LapIsSameIndex(a: nat, n: nat)
    requires n > 0
    ensures (a + n) % n == a % n
  {
    Quotient(a / n + 1, a % n, n, a + n);
  }

  lemma NextIndex(a: nat, n: nat)
    requires n > 0
    ensures (a % n + 1) % n == (a + 1) % n
  {
    var q := a / n;
    assert q * n + a % n == a;
    if a % n + 1 == n {
      assert (q + 1) * n == q * n + n;
      Quotient(q + 1, 0, n, a + 1);
    } else {
      Quotient(q, a % n + 1, n, a + 1);
    }
  }
}
