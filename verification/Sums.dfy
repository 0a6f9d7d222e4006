/** Totals over finite maps and sequences, shared by every ledger of the model. */
module Sums {

  /** The total of the values of a finite map, in no particular order. */
  ghost function MapSum<K>(m: map<K, int>): int
  {
    if m == map[] then 0
    else
      var k :| k in m;
      m[k] + MapSum(m - {k})
  }

  /** Whichever key is taken out first, the total splits the same way. */
  lemma {:induction false} MapSumSplit<K>(m: map<K, int>, k: K)
    requires k in m
    ensures MapSum(m) == m[k] + MapSum(m - {k})
    decreases m.Keys
  {
    var c :| c in m && MapSum(m) == m[c] + MapSum(m - {c});
    if c != k {
      assert (m - {c}).Keys < m.Keys && (m - {k}).Keys < m.Keys;
      MapSumSplit(m - {c}, k);
      MapSumSplit(m - {k}, c);
      assert m - {c} - {k} == m - {k} - {c};
    }
  }

  lemma MapSumPut<K>(m: map<K, int>, k: K, v: int)
    ensures MapSum(m[k := v]) == MapSum(m) + v - (if k in m then m[k] else 0)
  {
    var n := m[k := v];
    MapSumSplit(n, k);
    assert n - {k} == m - {k};
    if k in m {
      MapSumSplit(m, k);
    } else {
      assert m - {k} == m;
    }
  }

  lemma {:induction false} MapSumNonNegative<K>(m: map<K, int>)
    requires forall k :: k in m ==> m[k] >= 0
    ensures MapSum(m) >= 0
    ensures forall k :: k in m ==> m[k] <= MapSum(m)
    decreases m.Keys
  {
    forall k | k in m
      ensures 0 <= m[k] <= MapSum(m)
    {
      MapSumSplit(m, k);
      assert (m - {k}).Keys < m.Keys;
      MapSumNonNegative(m - {k});
    }
  }

  /** Extra keys with value zero do not change a total. */
  lemma {:induction false} MapSumZeroes<K>(m: map<K, int>, g: map<K, int>)
    requires g.Keys <= m.Keys
    requires forall k :: k in m ==> m[k] == if k in g then g[k] else 0
    ensures MapSum(m) == MapSum(g)
    decreases m.Keys
  {
    if m.Keys == g.Keys {
      assert m == g;
    } else {
      var k :| k in m && k !in g;
      MapSumSplit(m, k);
      MapSumZeroes(m - {k}, g);
    }
  }

  /** A part of a map of natural amounts totals no more than the map, and as much exactly if the rest is zero. */
  lemma {:induction false} MapSumPart<K>(m: map<K, int>, part: map<K, int>)
    requires part.Keys <= m.Keys && forall k :: k in part ==> part[k] == m[k]
    requires forall k :: k in m ==> m[k] >= 0
    ensures MapSum(part) <= MapSum(m)
    ensures MapSum(part) == MapSum(m) <==> forall k :: k in m && k !in part ==> m[k] == 0
    decreases m.Keys
  {
    if m.Keys == part.Keys {
      assert m == part;
    } else {
      var k :| k in m && k !in part;
      MapSumSplit(m, k);
      MapSumPart(m - {k}, part);
    }
  }
}
