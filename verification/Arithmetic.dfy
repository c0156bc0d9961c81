/** The few non-linear facts the proofs need, each proved once. */
module Arithmetic {
  lemma MulNext(k: int, n: int)
    ensures (k + 1) * n == k * n + n
  {
  }

  lemma {:induction false} MulMonotone(a: nat, b: nat, n: nat)
    requires a <= b
    ensures a * n <= b * n
    decreases b - a
  {
    if a < b {
      MulNext(a, n);
      MulMonotone(a + 1, b, n);
    }
  }

  lemma Divide(a: nat, n: nat) returns (q: nat, r: nat)
    requires 0 < n
    ensures a == q * n + r && r < n
  {
    q, r := a / n, a % n;
  }

  /** Quotient and remainder are unique. */
  lemma Quotient(a: nat, n: nat, q: nat, r: nat)
    requires r < n && a == q * n + r
    ensures a / n == q && a % n == r
  {
    var q', r' := a / n, a % n;
    assert a == q' * n + r';
    SameQuotient(q, r, q', r', n);
  }

  lemma SameQuotient(q: nat, r: nat, q': nat, r': nat, n: nat)
    requires r < n && r' < n && q * n + r == q' * n + r'
    ensures q == q' && r == r'
  {
    if q < q' {
      MulNext(q, n);
      MulMonotone(q + 1, q', n);
    } else if q' < q {
      MulNext(q', n);
      MulMonotone(q' + 1, q, n);
    }
  }

  lemma NextAt(k: nat, n: nat, q: nat, r: nat)
    requires r < n && k == q * n + r
    ensures (k + 1) % n == if r == n - 1 then 0 else r + 1
  {
    if r == n - 1 {
      MulNext(q, n);
      Quotient(k + 1, n, q + 1, 0);
    } else {
      Quotient(k + 1, n, q, r + 1);
    }
  }

  /** Going round `n` positions. */
  lemma NextIndex(k: nat, n: nat)
    requires 0 < n
    ensures (k + 1) % n == if k % n == n - 1 then 0 else k % n + 1
  {
    var q, r := Divide(k, n);
    Quotient(k, n, q, r);
    NextAt(k, n, q, r);
  }
}
