// Quotients and remainders, as far as the solver has to be told.

module Division {

  lemma TimesAtLeast(a: int, b: int, k: int)
    requires a > b && k > 0
    ensures a * k >= b * k + k
  {
    assert a * k == b * k + (a - b) * k;
    assert (a - b) * k == (a - b - 1) * k + k;
  }

  lemma Unique(a: int, k: int, q: int, r: int)
    requires k > 0 && 0 <= r < k && a == q * k + r
    ensures a / k == q && a % k == r
  {
    var p, s := a / k, a % k;
    assert a == p * k + s;
    if q > p {
      TimesAtLeast(q, p, k);
    } else if q < p {
      TimesAtLeast(p, q, k);
    }
  }

  // The quotient grows exactly at the multiples.
  lemma Before(y: int, k: int)
    requires k > 1
    ensures y / k - (y - 1) / k == if y % k == 0 then 1 else 0
  {
    var q, r := y / k, y % k;
    assert y == q * k + r;
    if r == 0 {
      assert y - 1 == (q - 1) * k + (k - 1);
      Unique(y - 1, k, q - 1, k - 1);
    } else {
      Unique(y - 1, k, q, r - 1);
    }
  }

  lemma Multiple(q: int, k: int, m: int)
    requires k > 0
    ensures (q * m * k) % k == 0
  {
    Unique(q * m * k, k, q * m, 0);
  }

  lemma AddDivisor(a: int, k: int)
    requires k > 0
    ensures (a + k) % k == a % k && (a + k) / k == a / k + 1
  {
    var q, r := a / k, a % k;
    assert a == q * k + r;
    assert a + k == (q + 1) * k + r;
    Unique(a + k, k, q + 1, r);
  }
}
