/** Division and remainder by a positive step, rounding down. */
module Division {

  lemma ProductSign(a: int, b: int)
    requires a >= 0 && b >= 0
    ensures a * b >= 0
  {
  }

  lemma Distributes(a: int, b: int, c: int)
    ensures (a - b) * c == a * c - b * c
  {
  }

  lemma OneStep(k: int, step: int)
    requires k >= 1 && step > 0
    ensures k * step >= step
  {
    ProductSign(k - 1, step);
    Distributes(k, 1, step);
  }

  lemma Recompose(n: int, step: int)
    requires step > 0
    ensures n == (n / step) * step + n % step && 0 <= n % step < step
  {
  }

  /** Quotient and remainder are the only ones that fit. */
  lemma Unique(n: int, q: int, r: int, step: int)
    requires step > 0 && n == q * step + r && 0 <= r < step
    ensures n / step == q && n % step == r
  {
    var k := n / step;
    Recompose(n, step);
    Distributes(q, k, step);
    Distributes(k, q, step);
    if q > k {
      OneStep(q - k, step);
    } else if q < k {
      OneStep(k - q, step);
    }
  }

  /** No multiple of step lies strictly between two neighbouring ones. */
  lemma NoneBetween(a: int, c: int, step: int)
    requires step > 0 && a % step == 0 && a < c < a + step
    ensures c % step != 0
  {
    Recompose(a, step);
    Unique(c, a / step, c - a, step);
  }

  lemma NextMultiple(a: int, step: int)
    requires step > 0 && a % step == 0
    ensures (a + step) % step == 0
  {
    Recompose(a, step);
    assert a + step == (a / step + 1) * step + 0 by { Distributes(a / step + 1, 1, step); }
    Unique(a + step, a / step + 1, 0, step);
  }

  lemma Multiple(k: int, step: int)
    requires step > 0
    ensures (k * step) % step == 0
  {
    Unique(k * step, k, 0, step);
  }

  /** Adding a multiple changes no remainder. */
  lemma SameRemainder(n: int, m: int, step: int)
    requires step > 0 && m % step == 0
    ensures (n + m) % step == n % step
  {
    Recompose(n, step);
    Recompose(m, step);
    assert n + m == (n / step + m / step) * step + n % step by {
      Distributes(n / step + m / step, m / step, step);
    }
    Unique(n + m, n / step + m / step, n % step, step);
  }

  lemma Negated(n: int, step: int)
    requires step > 0 && n % step == 0
    ensures (-n) % step == 0
  {
    Recompose(n, step);
    Distributes(0, n / step, step);
    Unique(-n, -(n / step), 0, step);
  }

  /** Shifting the origin keeps the multiples exactly when the shift is one. */
  lemma ShiftedMultiple(u: int, shift: int, step: int)
    requires step > 0 && u % step == 0
    ensures (u - shift) % step == 0 <==> shift % step == 0
  {
    if shift % step == 0 {
      Negated(shift, step);
      SameRemainder(u, -shift, step);
    }
    if (u - shift) % step == 0 {
      Negated(u - shift, step);
      SameRemainder(u, -(u - shift), step);
    }
  }
}
