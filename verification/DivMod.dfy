/** The few facts about division that the window arithmetic needs. */
module DivMod {

  lemma MulMono(m: nat, x: int, y: int)
    requires x <= y
    ensures m * x <= m * y
  {
  }

  lemma DivUnique(d: int, m: int, q: int)
    requires 0 < m && m * q <= d < m * (q + 1)
    ensures d / m == q
  {
    var p := d / m;
    assert m * p <= d < m * (p + 1);
    if p < q {
      MulMono(m, p + 1, q);
    } else if q < p {
      MulMono(m, q + 1, p);
    }
  }

  lemma DivBounds(d: int, m: int)
    requires 0 < m
    ensures m * (d / m) <= d < m * (d / m + 1) && d % m == d - m * (d / m)
  {
  }

  lemma DivDiv(d: nat, a: nat, b: nat)
    requires 0 < a && 0 < b && 0 < a * b
    ensures d / a / b == d / (a * b)
  {
    var e := d / a;
    var f := e / b;
    DivBounds(d, a);
    DivBounds(e, b);
    MulMono(a, b * f, e);
    MulMono(a, e + 1, b * (f + 1));
    assert (a * b) * f == a * (b * f);
    assert (a * b) * (f + 1) == a * (b * (f + 1));
    DivUnique(d, a * b, f);
  }

  /** Dropping whole multiples first. */
  lemma DivShift(d: int, m: int, k: int)
    requires 0 < m
    ensures (d - m * k) / m == d / m - k && (d - m * k) % m == d % m
  {
    DivBounds(d, m);
    DivUnique(d - m * k, m, d / m - k);
  }
}
