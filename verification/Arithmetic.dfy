/** Division facts the solver does not find by itself. */
module Arithmetic {

  lemma ModuloSuccessor(k: nat, n: nat)
    requires n > 0
    ensures (k + 1) % n == if k % n == n - 1 then 0 else k % n + 1
  {
    var q, r := k / n, k % n;
    var q', r' := (k + 1) / n, (k + 1) % n;
    assert k == q * n + r && k + 1 == q' * n + r';
    if r == n - 1 {
      assert q * n + n == (q + 1) * n;
      RemainderUnique(n, q + 1, 0, q', r');
    } else {
      RemainderUnique(n, q, r + 1, q', r');
    }
  }

  lemma {:induction false} RemainderUnique(n: nat, q: nat, r: nat, q': nat, r': nat)
    requires r < n && r' < n
    requires q * n + r == q' * n + r'
    ensures q == q' && r == r'
  {
    assert q > 0 ==> q * n == (q - 1) * n + n;
    assert q' > 0 ==> q' * n == (q' - 1) * n + n;
    if q > 0 && q' > 0 {
      RemainderUnique(n, q - 1, r, q' - 1, r');
    }
  }

  lemma SmallRemainder(i: nat, n: nat)
    requires i < n
    ensures i % n == i
  {
    RemainderUnique(n, i / n, i % n, 0, i);
  }

  lemma QuotientStep(a: nat, n: nat)
    requires n > 0
    ensures (a + n) / n == a / n + 1
  {
    var q, r := a / n, a % n;
    var q', r' := (a + n) / n, (a + n) % n;
    assert a == q * n + r && a + n == q' * n + r';
    assert q * n + n == (q + 1) * n;
    RemainderUnique(n, q + 1, r, q', r');
  }

  lemma SmallQuotient(a: nat, n: nat)
    requires a < n
    ensures a / n == 0
  {
    RemainderUnique(n, a / n, a % n, 0, a);
  }
}
