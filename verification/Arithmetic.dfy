/** Products and quotients, as far as counting by N needs them. */
module Arithmetic {
  lemma ProductGrows(p: int, q: int, d: nat)
    requires p < q
    ensures p * d + d <= q * d
  {
    assert (q - p - 1) * d >= 0;
    assert (q - p - 1) * d == q * d - p * d - d;
  }

  lemma QuotientAtLeast(n: nat, k: nat, d: nat)
    requires d > 0 && k * d <= n
    ensures k <= n / d
  {
    assert n == (n / d) * d + n % d;
    if n / d < k {
      ProductGrows(n / d, k, d);
    }
  }

  lemma NextQuotient(n: nat, d: nat)
    requires d > 0
    ensures (n + 1) / d == n / d + if (n + 1) % d == 0 then 1 else 0
  {
    var q, r := n / d, n % d;
    var p, m := (n + 1) / d, (n + 1) % d;
    assert n == q * d + r && n + 1 == p * d + m;
    if p < q {
      ProductGrows(p, q, d);
    } else if p > q {
      ProductGrows(q, p, d);
      if p > q + 1 {
        ProductGrows(q, q + 1, d);
        ProductGrows(q + 1, p, d);
      }
    }
  }
}
