/**
 Settlement of the swap-fee pool among the winners of the previous ballot
 (`rewardPrevBallotWinners`, x/oracle/end_blocker.go).
 */
module OracleSettlement {
  import opened Sums
  import opened Coins
  import Dec

  /** One recipient's reward in one denomination: divided first, multiplied after, truncated twice. */
  function Share(fee: int, weightSum: int, weight: int): int
  {
    if weightSum == 0 then 0 else
    Dec.TruncateInt(Dec.MulInt(Dec.QuoInt(Dec.FromInt(fee), weightSum), weight))
  }

  function Shares(pool: Coins, weightSum: int, weight: int): Coins
  {
    map d | d in pool :: Share(pool[d], weightSum, weight)
  }

  /** What each of the recipients in `who` is due in one denomination. */
  function Due(claims: map<Addr, int>, who: set<Addr>, weightSum: int, fee: int): map<Addr, int>
  {
    map r | r in claims && r in who :: Share(fee, weightSum, claims[r])
  }

  // ---------------------------------------------------------------------------
  // Arithmetic of one fee coin

  /** What one unit of weight is worth, as a decimal. */
  function UnitValue(fee: nat, weightSum: nat): (q: nat)
    requires weightSum > 0
    ensures q * weightSum <= fee * Dec.ONE < q * weightSum + weightSum
  {
    Dec.DivBounds(fee * Dec.ONE, weightSum);
    fee * Dec.ONE / weightSum
  }

  lemma {:induction false} ShareBounds(fee: nat, weightSum: nat, weight: nat)
    requires weightSum > 0
    ensures Brackets(UnitValue(fee, weightSum), weight, Share(fee, weightSum, weight), 1)
  {
    var q := UnitValue(fee, weightSum);
    assert q * weight >= 0;
    Dec.DivBounds(q * weight, Dec.ONE);
  }

  function Weights(claims: map<Addr, int>, who: set<Addr>): map<Addr, int>
  {
    map r | r in claims && r in who :: claims[r]
  }

  /** `paid` is `q * weights` in units of 10^18, with less than one unit lost on each of `n` roundings. */
  ghost predicate Brackets(q: int, weights: int, paid: int, n: int)
  {
    && weights >= 0 && paid >= 0
    && paid * Dec.ONE <= q * weights <= paid * Dec.ONE + n * (Dec.ONE - 1)
  }

  lemma {:induction false} BracketsAdd(q: nat, w: int, x: int, v: int, y: int, n: int)
    requires Brackets(q, w, x, n) && Brackets(q, v, y, 1)
    ensures Brackets(q, w + v, x + y, n + 1)
  {
    assert q * (w + v) == q * w + q * v;
  }

  lemma {:induction false} DueStep(claims: map<Addr, int>, who: set<Addr>, weightSum: int, fee: int, r: Addr)
    requires r in claims && r !in who
    ensures Total(Due(claims, who + {r}, weightSum, fee))
            == Total(Due(claims, who, weightSum, fee)) + Share(fee, weightSum, claims[r])
  {
    var due := Due(claims, who + {r}, weightSum, fee);
    assert due - {r} == Due(claims, who, weightSum, fee);
    TotalRemove(due, r);
  }

  lemma {:induction false} WeightsStep(claims: map<Addr, int>, who: set<Addr>, r: Addr)
    requires r in claims && r !in who
    ensures Total(Weights(claims, who + {r})) == Total(Weights(claims, who)) + claims[r]
  {
    var part := Weights(claims, who + {r});
    assert part - {r} == Weights(claims, who);
    TotalRemove(part, r);
  }

  lemma {:induction false} DueOfNobody(claims: map<Addr, int>, weightSum: int, fee: int)
    ensures Total(Due(claims, {}, weightSum, fee)) == 0 && Total(Weights(claims, {})) == 0
  {
    assert Due(claims, {}, weightSum, fee) == map[] && Weights(claims, {}) == map[];
  }

  lemma {:induction false} OneShareMore(fee: nat, weightSum: nat, weight: nat, w: int, x: int, n: int,
          w': int, x': int, n': int)
    requires weightSum > 0 && Brackets(UnitValue(fee, weightSum), w, x, n)
    requires w' == w + weight && x' == x + Share(fee, weightSum, weight) && n' == n + 1
    ensures Brackets(UnitValue(fee, weightSum), w', x', n')
  {
    ShareBounds(fee, weightSum, weight);
    BracketsAdd(UnitValue(fee, weightSum), w, x, weight, Share(fee, weightSum, weight), n);
  }

  /** Shares of a set of recipients bracket the exact product of the quotient and their weights. */
  lemma {:induction false} DueBounds(claims: map<Addr, int>, who: set<Addr>, fee: nat, weightSum: nat)
    requires NonNegative(claims) && weightSum > 0 && who <= claims.Keys
    ensures Brackets(UnitValue(fee, weightSum), Total(Weights(claims, who)), Total(Due(claims, who, weightSum, fee)),
            |who|)
    decreases who
  {
    if who == {} {
      DueOfNobody(claims, weightSum, fee);
    } else {
      var r :| r in who;
      var rest := who - {r};
      assert who == rest + {r};
      DueBounds(claims, rest, fee, weightSum);
      DueStep(claims, rest, weightSum, fee, r);
      WeightsStep(claims, rest, r);
      OneShareMore(fee, weightSum, claims[r],
          Total(Weights(claims, rest)), Total(Due(claims, rest, weightSum, fee)), |rest|,
          Total(Weights(claims, who)), Total(Due(claims, who, weightSum, fee)), |who|);
    }
  }

  /** Payouts never exceed the fee, and less is left over than one unit a claim plus `weightSum / 10^18`. */
  lemma {:induction false} SettlementExact(claims: map<Addr, int>, fee: nat)
    requires NonNegative(claims) && Total(claims) > 0
    ensures var paid := Total(Due(claims, claims.Keys, Total(claims), fee));
            && 0 <= paid <= fee
            && (fee - paid) * Dec.ONE < |claims| * Dec.ONE + Total(claims)
  {
    var weightSum := Total(claims);
    var paid := Total(Due(claims, claims.Keys, weightSum, fee));
    assert Weights(claims, claims.Keys) == claims;
    DueBounds(claims, claims.Keys, fee, weightSum);
    assert |claims.Keys| == |claims|;
    assert |claims| != 0 by {
      assert claims != map[];
    }
  }

  /** A part of the recipients receives no more than all of them. */
  lemma {:induction false} DueMonotone(claims: map<Addr, int>, who: set<Addr>, all: set<Addr>, fee: nat, weightSum: nat)
    requires NonNegative(claims) && weightSum > 0 && who <= all <= claims.Keys
    ensures Total(Due(claims, who, weightSum, fee)) <= Total(Due(claims, all, weightSum, fee))
    decreases all
  {
    if who != all {
      assert exists r :: r in all && r !in who;
      var r :| r in all && r !in who;
      DueMonotone(claims, who, all - {r}, fee, weightSum);
      var due := Due(claims, all, weightSum, fee);
      assert due - {r} == Due(claims, all - {r}, weightSum, fee);
      TotalRemove(due, r);
      ShareBounds(fee, weightSum, claims[r]);
    }
  }

  // ---------------------------------------------------------------------------
  // The settled books

  /** Validator rewards once the recipients in `who` that are validators have been paid. */
  function RewardsAfter(rewards: Book, claims: map<Addr, int>, who: set<Addr>, weightSum: int, pool: Coins): Book
    requires who <= claims.Keys
  {
    map r | r in rewards.Keys + who ::
      if r in who then AddCoins(Row(rewards, r), Shares(pool, weightSum, claims[r])) else rewards[r]
  }

  /** Collected fees: what was there, plus whatever of the pool did not go to a validator. */
  ghost function CollectedAfter(collected: Coins, claims: map<Addr, int>, paidVals: set<Addr>, weightSum: int,
          pool: Coins): Coins
  {
    map d | d in collected.Keys + pool.Keys ::
      Get(collected, d) + (if d in pool then pool[d] - Total(Due(claims, paidVals, weightSum, pool[d])) else 0)
  }

  lemma {:induction false} RewardsStep(rewards: Book, claims: map<Addr, int>, who: set<Addr>, weightSum: int,
          pool: Coins, r: Addr)
    requires who <= claims.Keys && r in claims && r !in who
    ensures RewardsAfter(rewards, claims, who + {r}, weightSum, pool)
         == Credit(RewardsAfter(rewards, claims, who, weightSum, pool), r, Shares(pool, weightSum, claims[r]))
  {
    assert Row(RewardsAfter(rewards, claims, who, weightSum, pool), r) == Row(rewards, r);
  }

  /** The validators' books grow by exactly what the paid validators are due. */
  lemma {:induction false} RewardsTotal(rewards: Book, claims: map<Addr, int>, who: set<Addr>, weightSum: int,
          pool: Coins, d: Denom)
    requires who <= claims.Keys
    ensures BookTotal(RewardsAfter(rewards, claims, who, weightSum, pool), d)
         == BookTotal(rewards, d) + (if d in pool then Total(Due(claims, who, weightSum, pool[d])) else 0)
    decreases who
  {
    if who == {} {
      assert RewardsAfter(rewards, claims, who, weightSum, pool) == rewards;
      assert d in pool ==> Due(claims, who, weightSum, pool[d]) == map[];
    } else {
      var r :| r in who;
      var rest := who - {r};
      assert who == rest + {r};
      RewardsTotal(rewards, claims, rest, weightSum, pool, d);
      RewardsStep(rewards, claims, rest, weightSum, pool, r);
      CreditTotal(RewardsAfter(rewards, claims, rest, weightSum, pool), r, Shares(pool, weightSum, claims[r]), d);
      if d in pool {
        DueStep(claims, rest, weightSum, pool[d], r);
      }
    }
  }

  /** The result of a settlement. */
  datatype Settled = Settled(rewards: Book, collected: Coins)

  ghost function Settle(rewards: Book, collected: Coins, claims: map<Addr, int>, vals: set<Addr>, pool: Coins): Settled
    requires Total(claims) != 0
  {
    var paidVals := claims.Keys * vals;
    Settled(RewardsAfter(rewards, claims, paidVals, Total(claims), pool),
            CollectedAfter(collected, claims, paidVals, Total(claims), pool))
  }

  /** Settlement conserves: rewards and collected fees together grow by exactly the pool, in every denomination. */
  lemma {:induction false} SettleConserves(rewards: Book, collected: Coins, claims: map<Addr, int>, vals: set<Addr>,
          pool: Coins, d: Denom)
    requires Total(claims) != 0
    ensures var s := Settle(rewards, collected, claims, vals, pool);
            BookTotal(s.rewards, d) + Get(s.collected, d) == BookTotal(rewards, d) + Get(collected, d) + Get(pool, d)
  {
    RewardsTotal(rewards, claims, claims.Keys * vals, Total(claims), pool, d);
  }

  /** Collected fees never shrink: what the validators receive is covered by the pool. */
  lemma {:induction false} SettleNeverOverpays(rewards: Book, collected: Coins, claims: map<Addr, int>,
          vals: set<Addr>, pool: Coins, d: Denom)
    requires NonNegative(claims) && Total(claims) != 0 && NonNegative(pool)
    ensures var s := Settle(rewards, collected, claims, vals, pool);
            Get(collected, d) <= Get(s.collected, d) <= Get(collected, d) + Get(pool, d)
  {
    TotalNonNegative(claims);
    if d in pool {
      var paidVals := claims.Keys * vals;
      DueMonotone(claims, paidVals, claims.Keys, pool[d], Total(claims));
      SettlementExact(claims, pool[d]);
      DueBounds(claims, paidVals, pool[d], Total(claims));
    }
  }

  // ---------------------------------------------------------------------------
  // The code: two passes over the claim pool, in whatever order the store yields them

  method SumWeights(claims: map<Addr, int>) returns (sum: int)
    ensures sum == Total(claims)
  {
    sum := 0;
    var todo := claims;
    while todo != map[]
      invariant sum + Total(todo) == Total(claims)
      decreases todo
    {
      var r :| r in todo;
      TotalRemove(todo, r);
      sum := sum + todo[r];
      todo := todo - {r};
    }
  }

  /** One recipient's reward coins. */
  method ComputeShares(pool: Coins, weightSum: int, weight: int) returns (shares: Coins)
    ensures shares == Shares(pool, weightSum, weight)
  {
    shares := map[];
    var todo := pool.Keys;
    while todo != {}
      invariant todo <= pool.Keys
      invariant shares == map d | d in pool && d !in todo :: Share(pool[d], weightSum, weight)
      decreases todo
    {
      var d :| d in todo;
      shares := shares[d := Share(pool[d], weightSum, weight)];
      todo := todo - {d};
    }
  }

  /** Everything distributed to the recipients in `who`, by denomination. */
  ghost function Distributed(claims: map<Addr, int>, who: set<Addr>, weightSum: int, pool: Coins): Coins
  {
    if who == {} then map[] else map d | d in pool :: Total(Due(claims, who, weightSum, pool[d]))
  }

  lemma {:induction false} DistributedDue(claims: map<Addr, int>, who: set<Addr>, weightSum: int, pool: Coins, d: Denom)
    ensures Get(Distributed(claims, who, weightSum, pool), d) == if d in pool
            then Total(Due(claims, who, weightSum, pool[d])) else 0
  {
    if who == {} && d in pool {
      assert Due(claims, who, weightSum, pool[d]) == map[];
    }
  }

  lemma {:induction false} DistributedStep(claims: map<Addr, int>, who: set<Addr>, weightSum: int, pool: Coins, r: Addr)
    requires r in claims && r !in who
    ensures Distributed(claims, who + {r}, weightSum, pool)
         == AddCoins(Distributed(claims, who, weightSum, pool), Shares(pool, weightSum, claims[r]))
  {
    var before, after := Distributed(claims, who, weightSum, pool), Distributed(claims, who + {r}, weightSum, pool);
    var shares := Shares(pool, weightSum, claims[r]);
    forall d
      ensures (d in after <==> d in AddCoins(before, shares)) && Get(after, d) == Get(AddCoins(before, shares), d)
    {
      DistributedDue(claims, who, weightSum, pool, d);
      DistributedDue(claims, who + {r}, weightSum, pool, d);
      if d in pool {
        DueStep(claims, who, weightSum, pool[d], r);
      }
    }
    SameMap(after, AddCoins(before, shares));
  }

  /** What is due splits into what validators and what absent recipients receive. */
  lemma {:induction false} DuePartition(claims: map<Addr, int>, who: set<Addr>, vals: set<Addr>, weightSum: int,
          fee: int)
    requires who <= claims.Keys
    ensures Total(Due(claims, who, weightSum, fee))
         == Total(Due(claims, who * vals, weightSum, fee)) + Total(Due(claims, who - vals, weightSum, fee))
    decreases who
  {
    if who == {} {
      assert Due(claims, {}, weightSum, fee) == map[];
      assert who * vals == {} && who - vals == {};
    } else {
      var r :| r in who;
      var rest := who - {r};
      DuePartition(claims, rest, vals, weightSum, fee);
      assert who == rest + {r};
      DueStep(claims, rest, weightSum, fee, r);
      if r in vals {
        assert who * vals == rest * vals + {r} && who - vals == rest - vals;
        DueStep(claims, rest * vals, weightSum, fee, r);
      } else {
        assert who * vals == rest * vals && who - vals == (rest - vals) + {r};
        DueStep(claims, rest - vals, weightSum, fee, r);
      }
    }
  }

  /** Pays the claims out and moves the rest of the pool to the fee collector. */
  method PayOut(rewards: Book, collected: Coins, claims: map<Addr, int>, vals: set<Addr>, pool: Coins, weightSum: int)
    returns (settled: Settled)
    requires weightSum == Total(claims) != 0
    ensures settled == Settle(rewards, collected, claims, vals, pool)
  {
    var paid := Distribute(rewards, collected, claims, vals, pool, weightSum);
    LeftoverCompletes(collected, claims, vals, weightSum, pool);
    var collected' := CollectLeftover(paid.collected, pool, paid.distributed);
    settled := Settled(paid.rewards, collected');
  }

  /** The books while claims are being paid. */
  datatype Books = Books(rewards: Book, collected: Coins, distributed: Coins)

  /** The books once the recipients in `done` have been visited. */
  ghost function Paid(start: Books, claims: map<Addr, int>, done: set<Addr>, vals: set<Addr>, weightSum: int,
          pool: Coins): Books
    requires done <= claims.Keys
  {
    Books(RewardsAfter(start.rewards, claims, done * vals, weightSum, pool),
          AddCoins(start.collected, Distributed(claims, done - vals, weightSum, pool)),
          Distributed(claims, done, weightSum, pool))
  }

  /** One recipient: a validator is allocated its share, an absent recipient's is collected. */
  function PayOne(books: Books, vals: set<Addr>, r: Addr, shares: Coins): Books
  {
    if r in vals then
      Books(Credit(books.rewards, r, shares), books.collected, AddCoins(books.distributed, shares))
    else
      Books(books.rewards, AddCoins(books.collected, shares), AddCoins(books.distributed, shares))
  }

  /** The pass over the claims, in any order. */
  method Distribute(rewards: Book, collected: Coins, claims: map<Addr, int>, vals: set<Addr>, pool: Coins,
          weightSum: int)
    returns (books: Books)
    ensures books == Paid(Books(rewards, collected, map[]), claims, claims.Keys, vals, weightSum, pool)
  {
    books := Books(rewards, collected, map[]);
    ghost var start := books;
    var todo := claims.Keys;
    ghost var done: set<Addr> := {};
    NothingPaid(start, claims, vals, weightSum, pool);
    while todo != {}
      invariant done + todo == claims.Keys && done !! todo
      invariant books == Paid(start, claims, done, vals, weightSum, pool)
      decreases todo
    {
      var r :| r in todo;
      var shares := ComputeShares(pool, weightSum, claims[r]);
      PaidStep(start, claims, done, vals, weightSum, pool, r);
      books := PayOne(books, vals, r, shares);
      todo := todo - {r};
      done := done + {r};
    }
    assert done == claims.Keys;
  }

  lemma {:induction false} NothingPaid(start: Books, claims: map<Addr, int>, vals: set<Addr>, weightSum: int,
          pool: Coins)
    requires start.distributed == map[]
    ensures Paid(start, claims, {}, vals, weightSum, pool) == start
  {
    assert {} * vals == {} && {} - vals == {};
    assert RewardsAfter(start.rewards, claims, {}, weightSum, pool) == start.rewards;
    assert AddCoins(start.collected, map[]) == start.collected;
  }

  lemma {:induction false} PaidStep(start: Books, claims: map<Addr, int>, done: set<Addr>, vals: set<Addr>,
          weightSum: int, pool: Coins, r: Addr)
    requires done <= claims.Keys && r in claims && r !in done
    ensures PayOne(Paid(start, claims, done, vals, weightSum, pool), vals, r, Shares(pool, weightSum, claims[r]))
         == Paid(start, claims, done + {r}, vals, weightSum, pool)
  {
    var shares := Shares(pool, weightSum, claims[r]);
    DistributedStep(claims, done, weightSum, pool, r);
    if r in vals {
      RewardsStep(start.rewards, claims, done * vals, weightSum, pool, r);
      assert (done + {r}) * vals == done * vals + {r} && (done + {r}) - vals == done - vals;
    } else {
      DistributedStep(claims, done - vals, weightSum, pool, r);
      assert (done + {r}) * vals == done * vals && (done + {r}) - vals == (done - vals) + {r};
      AddCoinsAssociative(start.collected, Distributed(claims, done - vals, weightSum, pool), shares);
    }
  }

  lemma {:induction false} AddCoinsAssociative(a: Coins, b: Coins, c: Coins)
    ensures AddCoins(AddCoins(a, b), c) == AddCoins(a, AddCoins(b, c))
  {
  }

  function WithLeftover(collected: Coins, pool: Coins, distributed: Coins, denoms: set<Denom>): Coins
  {
    map d | d in collected.Keys + denoms ::
      Get(collected, d) + (if d in denoms then Get(pool, d) - Get(distributed, d) else 0)
  }

  lemma {:induction false} LeftoverStep(collected: Coins, pool: Coins, distributed: Coins, denoms: set<Denom>, d: Denom)
    requires d !in denoms
    ensures WithLeftover(collected, pool, distributed, denoms + {d})
         == Plus(WithLeftover(collected, pool, distributed, denoms), d, Get(pool, d) - Get(distributed, d))
  {
  }

  /** `accmFeePool.Sub(distributedFee)`, added to the collected fees. */
  method CollectLeftover(collected: Coins, pool: Coins, distributed: Coins) returns (collected': Coins)
    ensures collected' == WithLeftover(collected, pool, distributed, pool.Keys)
  {
    collected' := collected;
    var todo := pool.Keys;
    ghost var done: set<Denom> := {};
    while todo != {}
      invariant done !! todo && done + todo == pool.Keys
      invariant collected' == WithLeftover(collected, pool, distributed, done)
      decreases todo
    {
      var d :| d in todo;
      LeftoverStep(collected, pool, distributed, done, d);
      collected' := Plus(collected', d, Get(pool, d) - Get(distributed, d));
      todo := todo - {d};
      done := done + {d};
    }
    assert done == pool.Keys;
  }

  lemma {:induction false} LeftoverOf(claims: map<Addr, int>, vals: set<Addr>, weightSum: int, pool: Coins, d: Denom)
    ensures Get(Distributed(claims, claims.Keys - vals, weightSum, pool), d)
            - Get(Distributed(claims, claims.Keys, weightSum, pool), d)
         == if d in pool then -Total(Due(claims, claims.Keys * vals, weightSum, pool[d])) else 0
  {
    DistributedDue(claims, claims.Keys - vals, weightSum, pool, d);
    DistributedDue(claims, claims.Keys, weightSum, pool, d);
    if d in pool {
      DuePartition(claims, claims.Keys, vals, weightSum, pool[d]);
    }
  }

  lemma {:induction false} LeftoverAt(collected: Coins, claims: map<Addr, int>, vals: set<Addr>, weightSum: int,
          pool: Coins, d: Denom)
    ensures var left := WithLeftover(AddCoins(collected, Distributed(claims, claims.Keys - vals, weightSum, pool)),
            pool,
                                     Distributed(claims, claims.Keys, weightSum, pool), pool.Keys);
            var spec := CollectedAfter(collected, claims, claims.Keys * vals, weightSum, pool);
            (d in left <==> d in spec) && Get(left, d) == Get(spec, d)
  {
    LeftoverOf(claims, vals, weightSum, pool, d);
  }

  /** Absent recipients' shares plus the leftover are the pool less what validators received. */
  lemma {:induction false} LeftoverCompletes(collected: Coins, claims: map<Addr, int>, vals: set<Addr>, weightSum: int,
          pool: Coins)
    ensures WithLeftover(AddCoins(collected, Distributed(claims, claims.Keys - vals, weightSum, pool)), pool,
                         Distributed(claims, claims.Keys, weightSum, pool), pool.Keys)
         == CollectedAfter(collected, claims, claims.Keys * vals, weightSum, pool)
  {
    forall d { LeftoverAt(collected, claims, vals, weightSum, pool, d); }
    SameMap(WithLeftover(AddCoins(collected, Distributed(claims, claims.Keys - vals, weightSum, pool)), pool,
                           Distributed(claims, claims.Keys, weightSum, pool), pool.Keys),
              CollectedAfter(collected, claims, claims.Keys * vals, weightSum, pool));
  }
}
