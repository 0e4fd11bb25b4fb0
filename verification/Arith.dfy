/** Small facts about products and quotients, kept apart so that other proofs stay linear: repeated
    addition instead of products, rounding up to multiples, and quotients determined by remainders. */
module Arith {

  function Max(a: int, b: int): int {
    if a < b then b else a
  }

  // n * k as repeated addition, for proofs that step through multiples.
  function Times(n: nat, k: nat): nat {
    if n == 0 then 0 else Times(n - 1, k) + k
  }

  lemma {:induction false} TimesIsProduct(n: nat, k: nat)
    ensures Times(n, k) == n * k
  {
    if n > 0 {
      TimesIsProduct(n - 1, k);
      MulStep(n, k);
    }
  }

  lemma {:induction false} TimesFits(k: nat, n: nat, c: nat)
    requires c < n
    ensures Times(c, k) + k <= Times(n, k)
  {
    if c < n - 1 {
      TimesFits(k, n - 1, c);
    }
  }

  lemma MulStep(n: int, k: int)
    ensures n * k == (n - 1) * k + k
    ensures (n + 1) * k == n * k + k
  {
  }

  lemma MulMono(a: int, b: int, k: nat)
    requires a <= b
    ensures a * k <= b * k
  {
  }

  lemma MulStrict(a: int, b: int, k: nat)
    requires a < b && k > 0
    ensures a * k + k <= b * k
  {
    MulMono(a + 1, b, k);
    MulStep(a + 1, k);
  }

  lemma MulMonoBoth(a: nat, b: nat, x: nat, y: nat)
    requires a <= b && x <= y
    ensures a * x <= b * y
  {
    MulMono(a, b, x);
    MulMono(x, y, b);
    assert a * x <= b * x;
    assert x * b <= y * b;
  }

  lemma OneMultiple(k: nat, q: int, q': int, r: int, r': int)
    requires k > 0 && q * k + r == q' * k + r' && 0 <= r < k && 0 <= r' < k
    ensures q == q' && r == r'
  {
    if q > q' {
      MulStrict(q', q, k);
    } else if q < q' {
      MulStrict(q, q', k);
    }
  }

  lemma DivModUnique(a: int, k: nat, q: int, r: int)
    requires k > 0 && a == q * k + r && 0 <= r < k
    ensures a % k == r && a / k == q
  {
    OneMultiple(k, q, a / k, r, a % k);
  }

  // Rounding up to a multiple, as the code writes it.
  lemma CeilDiv(n: nat, k: nat)
    requires k > 0
    ensures n <= ((n + k - 1) / k) * k < n + k
  {
    var a := n + k - 1;
    assert a == (a / k) * k + a % k;
  }

  lemma QuotientBelow(a: nat, n: nat, k: nat)
    requires k > 0 && a < n * k
    ensures 0 <= a / k < n
  {
    var d := a / k;
    assert d * k <= a;
    if d >= n {
      MulMono(n, d, k);
    }
  }
}
