/**
 * The sum of the values of a balance map, used to state that the ledger is
 * zero-sum. The sum does not depend on the order in which keys are visited
 * (SumRemove), which is what lets it follow the engine's dictionary updates.
 */
module MapSum {
  import opened Types

  ghost function Sum(m: map<Uid, int>): int
    decreases |m|
  {
    if m == map[] then 0
    else
      var k :| k in m;
      m[k] + Sum(m - {k})
  }

  /** Any key may be taken out first. */
  lemma {:induction false} SumRemove(m: map<Uid, int>, k: Uid)
    requires k in m
    ensures Sum(m) == m[k] + Sum(m - {k})
    decreases |m|
  {
    var k' :| k' in m && Sum(m) == m[k'] + Sum(m - {k'});
    if k' != k {
      assert m - {k'} - {k} == m - {k} - {k'};
      SumRemove(m - {k'}, k);
      SumRemove(m - {k}, k');
    }
  }

  /** One dictionary update `m[u] = (m[u] ?? 0) + d` adds exactly `d` to the sum. */
  lemma SumPost(m: map<Uid, int>, u: Uid, d: int)
    ensures Sum(Post(m, u, d)) == Sum(m) + d
  {
    var m' := Post(m, u, d);
    SumRemove(m', u);
    if u in m {
      SumRemove(m, u);
      assert m' - {u} == m - {u};
    } else {
      assert m' - {u} == m;
    }
  }

  /** A map whose every value is zero sums to zero. */
  lemma {:induction false} SumOfZeros(m: map<Uid, int>)
    requires forall u :: u in m ==> m[u] == 0
    ensures Sum(m) == 0
    decreases |m|
  {
    if m != map[] {
      var k :| k in m;
      SumRemove(m, k);
      SumOfZeros(m - {k});
    }
  }
}
