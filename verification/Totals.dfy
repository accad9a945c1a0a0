/** Sums over the threads of a state machine, for arguments that their work comes to an end. */
module Totals {

  /** The sum of `f` over the values of the map. */
  ghost function Total<V>(m: map<nat, V>, f: V -> nat): nat
    decreases m.Keys
  {
    if m == map[] then 0
    else
      var k :| k in m;
      assert (m - {k}).Keys == m.Keys - {k};
      f(m[k]) + Total(m - {k}, f)
  }

  lemma {:induction false} TotalSplit<V>(m: map<nat, V>, f: V -> nat, k: nat)
    requires k in m
    ensures Total(m, f) == f(m[k]) + Total(m - {k}, f)
    decreases m.Keys
  {
    var j :| j in m && Total(m, f) == f(m[j]) + Total(m - {j}, f);
    if j != k {
      assert (m - {j}).Keys == m.Keys - {j} && (m - {k}).Keys == m.Keys - {k};
      TotalSplit(m - {j}, f, k);
      TotalSplit(m - {k}, f, j);
      assert m - {j} - {k} == m - {k} - {j};
    }
  }

  /** Changing one value changes the sum by as much. */
  lemma {:induction false} TotalUpdate<V>(m: map<nat, V>, f: V -> nat, k: nat, v: V)
    requires k in m
    ensures Total(m[k := v], f) == Total(m, f) - f(m[k]) + f(v)
  {
    TotalSplit(m, f, k);
    TotalSplit(m[k := v], f, k);
    assert m[k := v] - {k} == m - {k};
  }

  lemma {:induction false} TotalSame<V>(m: map<nat, V>, f: V -> nat, n: map<nat, V>, g: V -> nat)
    requires m.Keys == n.Keys && forall k :: k in m ==> f(m[k]) == g(n[k])
    ensures Total(m, f) == Total(n, g)
    decreases m.Keys
  {
    if m == map[] {
      assert n == map[];
    } else {
      var k :| k in m && Total(m, f) == f(m[k]) + Total(m - {k}, f);
      assert (m - {k}).Keys == m.Keys - {k} && (n - {k}).Keys == n.Keys - {k};
      TotalSplit(n, g, k);
      TotalSame(m - {k}, f, n - {k}, g);
    }
  }
}
