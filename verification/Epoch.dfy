/** Block-height arithmetic of types/util/epoch.go. */
module Epoch {
  import Dec

  const BLOCKS_PER_MINUTE: int := 10
  const BLOCKS_PER_DAY: int := BLOCKS_PER_MINUTE * 60 * 24
  const BLOCKS_PER_WEEK: int := BLOCKS_PER_DAY * 7
  const BLOCKS_PER_EPOCH: int := BLOCKS_PER_WEEK

  function Day(height: nat): nat { height / BLOCKS_PER_DAY }

  function GetEpoch(height: nat): nat { height / BLOCKS_PER_EPOCH }

  /** The number of whole periods before a height, which is the quotient the code computes (PeriodIsQuotient), counted
      off so that it can be reasoned about without a division by a variable. */
  function PeriodOf(height: nat, blocksPerPeriod: nat): nat
    requires blocksPerPeriod > 0
    decreases height
  {
    if height < blocksPerPeriod then 0 else 1 + PeriodOf(height - blocksPerPeriod, blocksPerPeriod)
  }

  predicate IsPeriodLastBlock(height: nat, blocksPerPeriod: nat)
    requires blocksPerPeriod > 0
  {
    (height + 1) % blocksPerPeriod == 0
  }

  lemma {:induction false} PeriodIsQuotient(height: nat, n: nat)
    requires n > 0
    ensures PeriodOf(height, n) == height / n
    decreases height
  {
    if height < n {
      DivModUnique(height, n, 0, height);
    } else {
      PeriodIsQuotient(height - n, n);
      var q, r := (height - n) / n, (height - n) % n;
      assert height - n == q * n + r;
      assert height == (q + 1) * n + r;
      DivModUnique(height, n, q + 1, r);
    }
  }

  lemma {:induction false} DivModUnique(n: nat, d: nat, q: nat, r: nat)
    requires d > 0 && r < d && n == q * d + r
    ensures n / d == q && n % d == r
  {
    var p := n / d;
    assert n == p * d + n % d;
    assert p < q ==> (p + 1) * d <= q * d;
    assert q < p ==> (q + 1) * d <= p * d;
  }

  /** A block is the last of its period exactly when the next height opens the next period. */
  lemma {:induction false} LastBlockOpensNextPeriod(height: nat, n: nat)
    requires n > 0
    ensures PeriodOf(height + 1, n) == PeriodOf(height, n) + (if IsPeriodLastBlock(height, n) then 1 else 0)
    ensures IsPeriodLastBlock(height, n) ==> height == (PeriodOf(height, n) + 1) * n - 1
  {
    PeriodIsQuotient(height, n);
    PeriodIsQuotient(height + 1, n);
    var q, r := height / n, height % n;
    assert height == q * n + r;
    if r + 1 == n {
      assert height + 1 == (q + 1) * n + 0;
      DivModUnique(height + 1, n, q + 1, 0);
    } else {
      assert height + 1 == q * n + (r + 1);
      DivModUnique(height + 1, n, q, r + 1);
    }
  }

  lemma {:induction false} PeriodBounds(height: nat, n: nat)
    requires n > 0
    ensures PeriodOf(height, n) * n <= height < (PeriodOf(height, n) + 1) * n
  {
    PeriodIsQuotient(height, n);
    assert height == (height / n) * n + height % n;
  }

  lemma {:induction false} PeriodMonotone(a: nat, b: nat, n: nat)
    requires n > 0 && a <= b
    ensures PeriodOf(a, n) <= PeriodOf(b, n)
  {
    PeriodBounds(a, n);
    PeriodBounds(b, n);
    var p, q := PeriodOf(a, n), PeriodOf(b, n);
    if q < p {
      Dec.TimesMonotone(q + 1, p, n);
    }
  }
}
