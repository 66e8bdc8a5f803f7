/** Division facts that the solver does not find by itself. */
module Arith {

  lemma AtLeastOnce(k: int, t: int)
    requires k >= 1 && t >= 0
    ensures t * k >= t
  {
    assert t * k == t + t * (k - 1);
    assert t * (k - 1) >= 0;
  }

  lemma SameSplit(t: int, q: int, r: int, q': int, r': int)
    requires 0 <= r < t && 0 <= r' < t
    requires t * q + r == t * q' + r'
    ensures q == q' && r == r'
  {
    if q > q' {
      assert t * (q - q') == t * q - t * q';
      AtLeastOnce(q - q', t);
    } else if q < q' {
      assert t * (q' - q) == t * q' - t * q;
      AtLeastOnce(q' - q, t);
    }
  }

  /** Division is the only way to split `a` into a multiple of `t` and a smaller rest. */
  lemma DivUnique(a: int, t: int, q: int, r: int)
    requires 0 <= r < t && a == t * q + r
    ensures a / t == q && a % t == r
  {
    SameSplit(t, q, r, a / t, a % t);
  }

  lemma DivStep(a: int, t: int)
    requires t > 0
    ensures (a + 1) / t == a / t + if (a + 1) % t == 0 then 1 else 0
  {
    var q, r := a / t, a % t;
    if r == t - 1 {
      assert t * (q + 1) == t * q + t;
      DivUnique(a + 1, t, q + 1, 0);
    } else {
      DivUnique(a + 1, t, q, r + 1);
    }
  }

  /** Moving at least one whole `t` further moves the quotient by at least one. */
  lemma DivAdvance(a: int, b: int, t: int)
    requires t > 0 && b >= a + t
    ensures b / t >= a / t + 1
  {
  }

  lemma DivMonotone(a: int, b: int, t: int)
    requires t > 0 && a <= b
    ensures a / t <= b / t
  {
    var q, q' := a / t, b / t;
    if q' < q {
      assert t * (q - q') == t * q - t * q';
      AtLeastOnce(q - q', t);
    }
  }
}
