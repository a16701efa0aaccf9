/** Sums over finite maps. */
module Sums {
  import opened Words

  ghost function Sum(m: map<Id, nat>): nat {
    if m == map[] then 0 else
    var k :| k in m;
    m[k] + Sum(m - {k})
  }

  lemma {:induction false} SumRemove(m: map<Id, nat>, k: Id)
    requires k in m
    ensures Sum(m) == m[k] + Sum(m - {k})
  {
    var x :| x in m && Sum(m) == m[x] + Sum(m - {x});
    if x != k {
      SumRemove(m - {x}, k);
      SumRemove(m - {k}, x);
      assert m - {x} - {k} == m - {k} - {x};
    }
  }

  lemma {:induction false} SumLowers(m: map<Id, nat>, m': map<Id, nat>)
    requires m.Keys == m'.Keys && forall k | k in m :: m'[k] <= m[k]
    ensures Sum(m') <= Sum(m)
    ensures (exists k :: k in m && m'[k] < m[k]) ==> Sum(m') < Sum(m)
  {
    if m == map[] {
    } else {
      var k :| k in m && ((exists x :: x in m && m'[x] < m[x]) ==> m'[k] < m[k]);
      SumRemove(m, k);
      SumRemove(m', k);
      SumLowers(m - {k}, m' - {k});
    }
  }

  /** A sum follows the one value that changes. */
  lemma SumUpdate(m: map<Id, nat>, k: Id, v: nat)
    requires k in m
    ensures Sum(m[k := v]) == Sum(m) - m[k] + v
  {
    SumRemove(m, k);
    SumRemove(m[k := v], k);
    assert m[k := v] - {k} == m - {k};
  }

  function Times(n: nat, m: nat): nat {
    n * m
  }

  lemma TimesLess(n: nat, a: nat, b: nat)
    requires a < b
    ensures Times(n, a) + n <= Times(n, b)
  {
    assert n * a + n == n * (a + 1);
  }

  lemma TimesAtMost(n: nat, a: nat, b: nat)
    requires a <= b
    ensures Times(n, a) <= Times(n, b)
  {
  }
}
