/** Vocabulary shared by every module, and sums over finite maps. */
module Basics {

  datatype Option<+T> = None | Some(value: T)

  datatype Result<+T, +E> = Success(value: T) | Failure(error: E)

  // Identifiers are only ever compared for equality.
  type WalletId = int
  type SagaId = int
  type RequestId = int

  datatype Currency = USD | Other(code: nat)

  /** The sum of all values of a finite map. */
  ghost function MapSum<K(!new)>(m: map<K, int>): int
    decreases |m.Keys|
  {
    if m == map[] then 0
    else
      var k :| k in m;
      assert (m - {k}).Keys == m.Keys - {k};
      m[k] + MapSum(m - {k})
  }

  /** Any key, not only the chosen one, can be split off the sum. */
  lemma {:induction false} MapSumRemove<K(!new)>(m: map<K, int>, k: K)
    requires k in m
    ensures MapSum(m) == m[k] + MapSum(m - {k})
    decreases |m.Keys|
  {
    var k0 :| k0 in m && MapSum(m) == m[k0] + MapSum(m - {k0});
    assert (m - {k0}).Keys == m.Keys - {k0};
    assert (m - {k}).Keys == m.Keys - {k};
    if k0 != k {
      MapSumRemove(m - {k0}, k);
      MapSumRemove(m - {k}, k0);
      assert m - {k0} - {k} == m - {k} - {k0};
    }
  }

  /** Writing one entry moves the sum by the difference of that entry. */
  lemma MapSumPut<K(!new)>(m: map<K, int>, k: K, v: int)
    ensures MapSum(m[k := v]) == MapSum(m) + v - (if k in m then m[k] else 0)
  {
    MapSumRemove(m[k := v], k);
    assert m[k := v] - {k} == m - {k};
    if k in m {
      MapSumRemove(m, k);
    } else {
      assert m - {k} == m;
    }
  }

  lemma {:induction false} MapSumNonNegative<K(!new)>(m: map<K, int>)
    requires forall k <- m :: m[k] >= 0
    ensures MapSum(m) >= 0
    ensures forall k <- m :: m[k] <= MapSum(m)
    decreases |m.Keys|
  {
    forall k | k in m
      ensures 0 <= m[k] <= MapSum(m)
    {
      MapSumRemove(m, k);
      assert (m - {k}).Keys == m.Keys - {k};
      MapSumNonNegative(m - {k});
    }
  }

  lemma {:induction false} MapSumZero<K(!new)>(m: map<K, int>)
    requires forall k <- m :: m[k] == 0
    ensures MapSum(m) == 0
    decreases |m.Keys|
  {
    if m != map[] {
      var k :| k in m;
      assert (m - {k}).Keys == m.Keys - {k};
      MapSumZero(m - {k});
      MapSumRemove(m, k);
    }
  }
}
