/** Division and remainder when a multiple of the divisor is added. */
module Multiples {
  lemma Distribute(n: int, a: int, b: int)
    ensures n * (a + b) == n * a + n * b
  {
  }

  lemma {:induction false} MultiplesGap(n: int, a: int, b: int)
    requires n > 0 && a < b
    ensures n * a + n <= n * b
    decreases b - a
  {
    Distribute(n, b - 1, 1);
    if a < b - 1 {
      MultiplesGap(n, a, b - 1);
    }
  }

  lemma Euclid(y: int, n: int)
    requires n > 0
    ensures y == n * (y / n) + y % n && 0 <= y % n < n
  {
  }

  /** Quotient and remainder are the only ones. */
  lemma QuotientIsUnique(y: int, n: int, q: int, r: int)
    requires n > 0 && y == n * q + r && 0 <= r < n
    ensures y / n == q && y % n == r
  {
    var p := y / n;
    Euclid(y, n);
    if p < q {
      MultiplesGap(n, p, q);
    }
    if q < p {
      MultiplesGap(n, q, p);
    }
  }

  lemma MultiplesCarry(x: int, q: int, n: int)
    requires n > 0
    ensures (x + n * q) / n == x / n + q && (x + n * q) % n == x % n
  {
    Euclid(x, n);
    Distribute(n, x / n, q);
    QuotientIsUnique(x + n * q, n, x / n + q, x % n);
  }

  /** Remainders count up and start over. */
  lemma SuccessorRemainder(x: nat, n: nat)
    requires n > 0
    ensures (x + 1) % n == if x % n + 1 == n then 0 else x % n + 1
    ensures (x + 1) % n % n == (x + 1) % n
  {
    var q, r := x / n, x % n;
    Euclid(x, n);
    if r + 1 == n {
      Distribute(n, q, 1);
      QuotientIsUnique(x + 1, n, q + 1, 0);
    } else {
      QuotientIsUnique(x + 1, n, q, r + 1);
    }
    QuotientIsUnique((x + 1) % n, n, 0, (x + 1) % n);
  }
}
