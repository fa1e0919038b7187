/** Adding up a function over the values of a map. */
module MapSums {
  ghost function Total<V>(m: map<string, V>, f: V -> nat): nat
    decreases |m|
  {
    if m == map[] then 0
    else
      var k :| k in m;
      f(m[k]) + Total(m - {k}, f)
  }

  /** Any entry may be taken first. */
  lemma {:induction false} TotalTakes<V>(m: map<string, V>, f: V -> nat, k: string)
    requires k in m
    ensures Total(m, f) == f(m[k]) + Total(m - {k}, f)
    decreases |m|
  {
    var j :| j in m && Total(m, f) == f(m[j]) + Total(m - {j}, f);
    if j != k {
      TotalTakes(m - {j}, f, k);
      TotalTakes(m - {k}, f, j);
      assert m - {j} - {k} == m - {k} - {j};
    }
  }

  lemma TotalWith<V>(m: map<string, V>, f: V -> nat, k: string, v: V)
    ensures Total(m[k := v], f) == Total(m, f) + f(v) - (if k in m then f(m[k]) else 0)
  {
    TotalTakes(m[k := v], f, k);
    if k in m {
      TotalTakes(m, f, k);
      assert m[k := v] - {k} == m - {k};
    } else {
      assert m[k := v] - {k} == m;
    }
  }

  lemma LinearStep(n: nat, g: nat, h: nat, gv: nat, hv: nat, c: nat, d: nat, e: nat)
    ensures (n + 1) * c + (gv + g) * d + (hv + h) * e == (c + gv * d + hv * e) + (n * c + g * d + h * e)
  {
    assert (n + 1) * c == n * c + c;
    assert (gv + g) * d == gv * d + g * d;
    assert (hv + h) * e == hv * e + h * e;
  }

  /** A sum of linear terms. */
  lemma {:induction false} TotalLinear<V>(m: map<string, V>, f: V -> nat, g: V -> nat, h: V -> nat, c: nat, d: nat, e: nat)
    requires forall v :: f(v) == c + g(v) * d + h(v) * e
    ensures Total(m, f) == |m| * c + Total(m, g) * d + Total(m, h) * e
    decreases |m|
  {
    if m != map[] {
      var k :| k in m;
      var rest := m - {k};
      TotalLinear(rest, f, g, h, c, d, e);
      TotalTakes(m, f, k);
      TotalTakes(m, g, k);
      TotalTakes(m, h, k);
      assert |m| == |rest| + 1;
      LinearStep(|rest|, Total(rest, g), Total(rest, h), g(m[k]), h(m[k]), c, d, e);
    }
  }
}
