/** What the indicators of x/treasury measure, and how seigniorage is divided between miners and budget programs. */
module TreasuryIndicators {
  import opened Wrappers
  import opened Sums
  import opened Coins
  import opened Epoch
  import opened Treasury
  import opened TreasuryKeeper
  import BudgetPayout
  import Dec
  import Market
  import Mint
  import Quotes

  // ---------------------------------------------------------------------------
  // Windows

  /** The epochs of a window: the last `epochs` of them that have begun. */
  ghost function Window(cur: nat, epochs: int): set<int>
  {
    set e: int | 0 <= e <= cur && Recent(cur, epochs, e)
  }

  predicate Recent(cur: nat, epochs: int, e: int) { cur - epochs < e <= cur }

  /** The values of an indicator in all epochs that have begun. */
  ghost function ValuesUpTo(env: Env, indicator: Indicator, cur: nat): map<int, Option<int>>
  {
    map e: int | 0 <= e <= cur :: IndicatorAt(env, indicator, e)
  }

  /** The values known in the epochs of a set. */
  function Within(values: map<int, Option<int>>, epochs: set<int>): map<int, int>
  {
    map e | e in epochs && e in values && values[e].Some? :: values[e].value
  }

  /** Values listed backwards from `cur` add up to the total of the map that holds them. */
  lemma {:induction false} ListIsTotal(vs: seq<Option<int>>, m: map<int, int>, cur: int)
    requires forall e :: e in m <==> cur - |vs| < e <= cur
    requires forall k :: 0 <= k < |vs| ==> vs[k] == Some(Get(m, cur - k))
    ensures SumOf(vs) == Some(Total(m))
    decreases |vs|
  {
    if vs == [] {
      assert forall e :: e !in m;
    } else {
      var front, first := vs[..|vs| - 1], cur - |vs| + 1;
      TotalRemove(m, first);
      forall k | 0 <= k < |front|
        ensures front[k] == Some(Get(m - {first}, cur - k))
      {
        assert front[k] == vs[k];
      }
      ListIsTotal(front, m - {first}, cur);
      assert vs[|vs| - 1] == Some(Get(m, first));
    }
  }

  lemma {:induction false} Listed(env: Env, indicator: Indicator, cur: nat, count: nat)
    requires count <= cur + 1
    ensures ListedIn(Values(env, indicator, cur, count), ValuesUpTo(env, indicator, cur), cur)
  {
    forall k | 0 <= k < count
      ensures ListedAt(Values(env, indicator, cur, count), ValuesUpTo(env, indicator, cur), cur, k)
    {
      var v := IndicatorAt(env, indicator, cur - k);
      InList(env, indicator, cur, count, k, v);
      InMap(env, indicator, cur, cur - k, v);
    }
  }

  lemma {:induction false} InList(env: Env, indicator: Indicator, cur: nat, count: nat, k: nat, v: Option<int>)
    requires k < count <= cur + 1 && v == IndicatorAt(env, indicator, cur - k)
    ensures Values(env, indicator, cur, count)[k] == v
  {
  }

  lemma {:induction false} InMap(env: Env, indicator: Indicator, cur: nat, e: nat, v: Option<int>)
    requires e <= cur && v == IndicatorAt(env, indicator, e)
    ensures e in ValuesUpTo(env, indicator, cur) && ValuesUpTo(env, indicator, cur)[e] == v
  {
  }

  ghost predicate ListedAt(vs: seq<Option<int>>, values: map<int, Option<int>>, cur: int, k: nat)
    requires k < |vs|
  {
    cur - k in values && vs[k] == values[cur - k]
  }

  ghost predicate ListedIn(vs: seq<Option<int>>, values: map<int, Option<int>>, cur: int)
  {
    forall k :: 0 <= k < |vs| ==> ListedAt(vs, values, cur, k)
  }

  lemma {:induction false} CountIsTotal(vs: seq<Option<int>>, values: map<int, Option<int>>, cur: nat)
    requires |vs| <= cur + 1 && ListedIn(vs, values, cur)
    requires forall e :: e in Window(cur, |vs|) ==> e in values && values[e].Some?
    ensures SumOf(vs) == Some(Total(Within(values, Window(cur, |vs|))))
  {
    var m := Within(values, Window(cur, |vs|));
    forall k | 0 <= k < |vs|
      ensures vs[k] == Some(Get(m, cur - k))
    {
      assert cur - k in Window(cur, |vs|) && ListedAt(vs, values, cur, k);
    }
    ListIsTotal(vs, m, cur);
  }

  lemma {:induction false} WindowCounts(cur: nat, epochs: int)
    ensures |Window(cur, epochs)| == WindowSize(cur, epochs)
    decreases epochs
  {
    if epochs <= 0 {
      assert Window(cur, epochs) == {};
    } else {
      WindowCounts(cur, epochs - 1);
      var e := cur - epochs + 1;
      if e >= 0 {
        assert Window(cur, epochs) == Window(cur, epochs - 1) + {e};
      } else {
        assert Window(cur, epochs) == Window(cur, epochs - 1);
      }
    }
  }

  /** The sum over a window is the total over its epochs, and the average that by their number, truncated; over no
      epochs both are zero. */
  lemma {:induction false} WindowIsTotal(env: Env, indicator: Indicator, epochs: int)
    requires var cur := GetEpoch(env.mint.height);
             forall e :: e in Window(cur, epochs) ==> ValuesUpTo(env, indicator, cur)[e].Some?
    ensures var cur := GetEpoch(env.mint.height);
            var total, n := Total(Within(ValuesUpTo(env, indicator, cur), Window(cur, epochs))), |Window(cur, epochs)|;
            && Sum(env, indicator, epochs) == Some(total)
            && Average(env, indicator, epochs) == Some(if n == 0 then 0 else Dec.QuoInt(total, n))
  {
    var cur := GetEpoch(env.mint.height);
    var n, values := WindowSize(cur, epochs), ValuesUpTo(env, indicator, cur);
    WindowCounts(cur, epochs);
    assert Window(cur, n) == Window(cur, epochs);
    Listed(env, indicator, cur, n);
    CountIsTotal(Values(env, indicator, cur, n), values, cur);
    assert n == 0 ==> Within(values, Window(cur, epochs)) == map[];
  }

  // ---------------------------------------------------------------------------
  // Values in SDR

  /** `sdr` is what an amount is worth in SDR at the prices in the store, to within one in the last digit of each of two
      roundings. */
  predicate WorthInSdr(prices: Market.Prices, d: Denom, amount: int, sdr: int)
  {
    2 * Dec.Abs(sdr * Quotes.LunaPrice(prices, d) - amount * Quotes.LunaPrice(prices, SDR))
        <= 2 * Quotes.LunaPrice(prices, d) + Dec.ONE
  }

  /** Whatever has a price is valued at it: taxes and rewards in any denomination. */
  lemma {:induction false} ValuedAtPrices(prices: Market.Prices, d: Denom, amount: nat)
    requires Quotes.LunaPrice(prices, d) > 0 && Quotes.LunaPrice(prices, SDR) > 0
    ensures var sdr := InSdr(prices, d, amount);
            sdr.Some? && sdr.value >= 0 && WorthInSdr(prices, d, amount, sdr.value)
  {
    if d != SDR {
      Quotes.DecSwapPaysPrices(prices, d, amount, SDR);
      Quotes.DecSwapValue(prices, d, amount, SDR);
    }
  }

  lemma {:induction false} OnlyCoin(prices: Market.Prices, d: Denom, amount: int)
    requires InSdr(prices, d, amount).Some?
    ensures SumAll(EachInSdr(prices, map[d := amount])) == InSdr(prices, d, amount)
  {
    var each := EachInSdr(prices, map[d := amount]);
    var given := Given(each);
    assert given == map[d := InSdr(prices, d, amount).value];
    TotalUpdate(map[], d, InSdr(prices, d, amount).value);
  }

  ghost predicate Priced(prices: Market.Prices, coins: Coins)
  {
    Quotes.LunaPrice(prices, SDR) > 0 && forall d :: d in coins ==> Quotes.LunaPrice(prices, d) > 0 && coins[d] >= 0
  }

  /** What each coin is worth in SDR. */
  ghost predicate EachWorth(prices: Market.Prices, coins: Coins, worth: map<Denom, int>)
  {
    && worth.Keys == coins.Keys
    && forall d :: d in coins ==> worth[d] >= 0 && WorthInSdr(prices, d, coins[d] * Dec.ONE, worth[d])
  }

  /** The taxes of an epoch are worth what their coins are worth together. */
  lemma {:induction false} TaxesAreWorth(env: Env, epoch: int) returns (worth: map<Denom, int>)
    requires Priced(env.prices, ProceedsOf(env.proceeds, epoch))
    ensures EachWorth(env.prices, ProceedsOf(env.proceeds, epoch), worth)
    ensures TaxReward(env, epoch) == Some(Total(worth)) && Total(worth) >= 0
  {
    var coins := ProceedsOf(env.proceeds, epoch);
    var each := EachInSdr(env.prices, DecCoins(coins));
    worth := Given(each);
    forall d | d in coins
      ensures d in each && each[d].Some? && each[d].value >= 0
      ensures WorthInSdr(env.prices, d, coins[d] * Dec.ONE, each[d].value)
    {
      ValuedAtPrices(env.prices, d, Dec.Product(coins[d], Dec.ONE));
    }
    TotalNonNegative(worth);
    assert Total(worth) >= 0;
  }

  /** The first indicator, where every coin has a price: what the taxes of an epoch are worth for each bonded token,
      truncated. */
  lemma {:induction false} TaxForEachLuna(env: Env, epoch: nat) returns (taxes: map<Denom, int>, each: int)
    requires Priced(env.prices, ProceedsOf(env.proceeds, epoch)) && env.bonded > 0
    ensures EachWorth(env.prices, ProceedsOf(env.proceeds, epoch), taxes)
    ensures IndicatorAt(env, TaxPerLuna, epoch) == Some(each)
    ensures each * env.bonded <= Total(taxes) < (each + 1) * env.bonded
  {
    taxes := TaxesAreWorth(env, epoch);
    ForEachLuna(Total(taxes), env.bonded);
    each := PerLuna(Some(Total(taxes)), env.bonded).value;
  }

  /** The second: what the weight's part of the seigniorage of an epoch is worth. */
  lemma {:induction false} SeigniorageOfMiners(env: Env, epoch: nat, weight: nat, seigniorage: nat, miners: nat)
    returns (part: int)
    requires Quotes.LunaPrice(env.prices, SDR) > 0 && WeightFound(env.weights, epoch) == Some(weight)
    requires seigniorage == Mint.Seigniorage(env.mint, epoch) && miners == weight * seigniorage
    ensures IndicatorAt(env, SeigniorageReward, epoch) == Some(part) && WorthInSdr(env.prices, LUNA, miners, part)
  {
    part := MinersPart(env.prices, weight, seigniorage, miners);
  }

  /** The third: the taxes of an epoch and the second together. */
  lemma {:induction false} RewardsOfMiners(env: Env, epoch: nat) returns (taxes: map<Denom, int>)
    requires Priced(env.prices, ProceedsOf(env.proceeds, epoch))
    ensures EachWorth(env.prices, ProceedsOf(env.proceeds, epoch), taxes)
    ensures IndicatorAt(env, MiningReward, epoch)
            == Both(Some(Total(taxes)), IndicatorAt(env, SeigniorageReward, epoch))
  {
    taxes := TaxesAreWorth(env, epoch);
  }

  lemma {:induction false} MinersPart(prices: Market.Prices, weight: nat, seigniorage: nat, miners: nat)
    returns (part: int)
    requires Quotes.LunaPrice(prices, SDR) > 0 && miners == weight * seigniorage
    ensures RewardOf(prices, Some(weight), seigniorage) == Some(part)
    ensures WorthInSdr(prices, LUNA, miners, part)
  {
    ValuedAtPrices(prices, LUNA, miners);
    OnlyCoin(prices, LUNA, miners);
    part := InSdr(prices, LUNA, miners).value;
  }

  lemma {:induction false} ForEachLuna(total: nat, bonded: nat)
    requires bonded > 0
    ensures var each := PerLuna(Some(total), bonded);
            each.Some? && each.value * bonded <= total < (each.value + 1) * bonded
  {
    Dec.DivBounds(total, bonded);
    Dec.OneMore(total / bonded, bonded);
  }

  // ---------------------------------------------------------------------------
  // Miners and programs

  /** Seigniorage is divided by the reward weight without a remainder: `miners` is the weight's part of it and the
      programs are paid all the rest, each valued at the price of SDR, the rest in Luna where it cannot be swapped. */
  lemma {:induction false} SeigniorageIsDivided(prices: Market.Prices, weight: nat, seigniorage: nat, miners: nat)
    requires weight <= Dec.ONE && Quotes.LunaPrice(prices, SDR) > 0 && miners == weight * seigniorage
    ensures var reward := RewardOf(prices, Some(weight), seigniorage);
            var pool := BudgetPayout.RewardPool(prices, weight, seigniorage);
            var rest := seigniorage * Dec.ONE - miners;
            && reward.Some? && WorthInSdr(prices, LUNA, miners, reward.value)
            && rest >= 0 && (pool.None? <==> rest == 0)
            && (pool.Some? ==> if pool.value.denom == LUNA then pool.value.amount == rest
                               else pool.value.denom == SDR && WorthInSdr(prices, LUNA, rest, pool.value.amount))
  {
    var rest: nat := Dec.Product(Dec.ONE - weight, seigniorage);
    assert rest == seigniorage * Dec.ONE - miners;
    var _ := MinersPart(prices, weight, seigniorage, miners);
    Quotes.DecSwapPaysPrices(prices, LUNA, rest, SDR);
  }
}
