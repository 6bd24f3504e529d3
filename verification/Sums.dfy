/**
 Integer-valued stores: balances, fee pools, claim weights. A missing key counts as zero, as
 `sdk.Coins.AmountOf` has it, and `Total` adds up every entry, whatever order they are visited in.
 */
module Sums {

  function Get<K>(m: map<K, int>, k: K): int
  {
    if k in m then m[k] else 0
  }

  function Plus<K>(m: map<K, int>, k: K, x: int): map<K, int>
  {
    m[k := Get(m, k) + x]
  }

  ghost function Total<K>(m: map<K, int>): int
  {
    if m == map[] then 0
    else
      var k :| k in m;
      m[k] + Total(m - {k})
  }

  ghost predicate NonNegative<K>(m: map<K, int>)
  {
    forall k :: k in m ==> m[k] >= 0
  }

  lemma {:induction false} SameMap<K>(a: map<K, int>, b: map<K, int>)
    requires forall k :: (k in a <==> k in b) && Get(a, k) == Get(b, k)
    ensures a == b
  {
    assert forall k :: k in a ==> a[k] == Get(a, k) && b[k] == Get(b, k);
  }

  /** The sum may be taken starting from any key. */
  lemma {:induction false} TotalRemove<K>(m: map<K, int>, k: K)
    requires k in m
    ensures Total(m) == m[k] + Total(m - {k})
    decreases m
  {
    var first :| first in m && Total(m) == m[first] + Total(m - {first});
    if first != k {
      TotalRemove(m - {first}, k);
      TotalRemove(m - {k}, first);
      assert m - {first} - {k} == m - {k} - {first};
    }
  }

  lemma {:induction false} TotalUpdate<K>(m: map<K, int>, k: K, v: int)
    ensures Total(m[k := v]) == Total(m) - Get(m, k) + v
  {
    TotalRemove(m[k := v], k);
    assert m[k := v] - {k} == m - {k};
    if k in m {
      TotalRemove(m, k);
    } else {
      assert m - {k} == m;
    }
  }

  lemma {:induction false} TotalNonNegative<K>(m: map<K, int>)
    requires NonNegative(m)
    ensures Total(m) >= 0
    decreases m
  {
    if m != map[] {
      var k :| k in m;
      TotalRemove(m, k);
      TotalNonNegative(m - {k});
    }
  }

  /** No entry exceeds the total. */
  lemma {:induction false} EntryAtMostTotal<K>(m: map<K, int>, k: K)
    requires NonNegative(m)
    ensures 0 <= Get(m, k) <= Total(m)
  {
    TotalNonNegative(m);
    if k in m {
      TotalRemove(m, k);
      TotalNonNegative(m - {k});
    }
  }

  /** One key moves from those left to those done. */
  lemma {:induction false} MoveOne<K>(all: set<K>, done: set<K>, todo: set<K>, k: K)
    requires done + todo == all && done !! todo && k in todo
    ensures (done + {k}) + (todo - {k}) == all && (done + {k}) !! (todo - {k})
  {
  }
}
