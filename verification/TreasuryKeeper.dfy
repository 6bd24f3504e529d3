/** The keeper, the policy updates and the indicators of x/treasury. */
module TreasuryKeeper {
  import opened Wrappers
  import opened Treasury
  import opened Epoch
  import opened Sums
  import opened Coins
  import Dec
  import Mint
  import Market

  // ---------------------------------------------------------------------------
  // Indicators

  /** Everything the indicators look at. */
  datatype Env = Env(weights: Rates, mint: Mint.State, prices: Market.Prices, proceeds: map<int, Coins>, bonded: int)

  /** What an indicator is computed from the amounts of an epoch: taxes for each bonded Luna, or seigniorage, or both
      rewards together. */
  datatype Indicator = TaxPerLuna | SeigniorageReward | MiningReward

  /** A decimal amount in SDR. What cannot be swapped counts for nothing, and a price of zero is divided by: None. */
  function InSdr(prices: Market.Prices, d: Denom, amount: int): Option<int>
  {
    if d == SDR then Some(amount)
    else
      match Market.GetSwapDecCoin(prices, d, amount, SDR)
      case Ok(paid) => Some(paid)
      case Err(Panicked) => None
      case Err(_) => Some(0)
  }

  /** The coins as decimal amounts. */
  function DecCoins(coins: Coins): map<Denom, int>
  {
    map d | d in coins :: Dec.FromInt(coins[d])
  }

  function EachInSdr(prices: Market.Prices, amounts: map<Denom, int>): map<Denom, Option<int>>
  {
    map d | d in amounts :: InSdr(prices, d, amounts[d])
  }

  function Given(m: map<Denom, Option<int>>): map<Denom, int>
  {
    map d | d in m && m[d].Some? :: m[d].value
  }

  /** The sum of all values; one panic is enough to panic. */
  ghost function SumAll(m: map<Denom, Option<int>>): Option<int>
  {
    if exists d :: d in m && m[d] == None then None else Some(Total(Given(m)))
  }

  function ProceedsOf(proceeds: map<int, Coins>, epoch: int): Coins
  {
    if epoch in proceeds then proceeds[epoch] else map[]
  }

  ghost function TaxReward(env: Env, epoch: int): Option<int>
  {
    SumAll(EachInSdr(env.prices, DecCoins(ProceedsOf(env.proceeds, epoch))))
  }

  /** The part of a seigniorage that goes to miners. None where the code panics: on a weight that was never set, or on
      one that makes the coin negative. */
  ghost function RewardOf(prices: Market.Prices, weight: Option<int>, seigniorage: int): Option<int>
  {
    match weight
    case None => None
    case Some(w) =>
      var luna := Dec.MulInt(w, seigniorage);
      if luna < 0 then None else SumAll(EachInSdr(prices, map[LUNA := luna]))
  }

  ghost function SeigniorageRewardOf(env: Env, epoch: nat): Option<int>
  {
    RewardOf(env.prices, WeightFound(env.weights, epoch), Mint.Seigniorage(env.mint, epoch))
  }

  function PerLuna(tax: Option<int>, bonded: int): Option<int>
  {
    match tax
    case None => None
    case Some(v) => if bonded == 0 then None else Some(Dec.QuoInt(v, bonded))
  }

  function Both(x: Option<int>, y: Option<int>): Option<int>
  {
    match (x, y)
    case (Some(v), Some(w)) => Some(v + w)
    case (_, _) => None
  }

  /** The value of an indicator in an epoch, or a panic. */
  ghost function IndicatorAt(env: Env, indicator: Indicator, epoch: nat): Option<int>
  {
    match indicator
    case TaxPerLuna => PerLuna(TaxReward(env, epoch), env.bonded)
    case SeigniorageReward => SeigniorageRewardOf(env, epoch)
    case MiningReward => Both(TaxReward(env, epoch), SeigniorageRewardOf(env, epoch))
  }

  /** The values of the `count` epochs that end with `last`, backwards. */
  ghost function Values(env: Env, indicator: Indicator, last: int, count: nat): (vs: seq<Option<int>>)
    requires count <= last + 1
    ensures |vs| == count
  {
    seq(count, k requires 0 <= k < count => IndicatorAt(env, indicator, last - k))
  }

  /** One panic is enough to panic. */
  function SumOf(vs: seq<Option<int>>): Option<int>
  {
    if vs == [] then Some(0) else Both(SumOf(vs[..|vs| - 1]), vs[|vs| - 1])
  }

  ghost function WindowSum(env: Env, indicator: Indicator, last: int, count: nat): Option<int>
    requires count <= last + 1
  {
    SumOf(Values(env, indicator, last, count))
  }

  lemma {:induction false} ValuesPrefix(env: Env, indicator: Indicator, last: nat, count: nat, vs: seq<Option<int>>)
    requires count <= last + 1 && vs == Values(env, indicator, last, last + 1)
    ensures WindowSum(env, indicator, last, count) == SumOf(vs[..count])
  {
    assert Values(env, indicator, last, count) == vs[..count];
  }

  lemma {:induction false} SumOfStep(vs: seq<Option<int>>, k: nat)
    requires k < |vs|
    ensures SumOf(vs[..k + 1]) == Both(SumOf(vs[..k]), vs[k])
  {
    assert vs[..k + 1][..k] == vs[..k];
  }

  /** A panic on the way is a panic of the whole window. */
  lemma {:induction false} SumOfPanics(vs: seq<Option<int>>, k: nat, n: nat)
    requires k <= n <= |vs| && SumOf(vs[..k]) == None
    ensures SumOf(vs[..n]) == None
    decreases n
  {
    if k < n {
      SumOfPanics(vs, k, n - 1);
      SumOfStep(vs, n - 1);
    }
  }

  /** How many epochs a window covers: no more than have begun, and none if it is empty. */
  function WindowSize(curEpoch: nat, epochs: int): (n: nat)
    ensures n <= curEpoch + 1
  {
    if epochs <= 0 then 0 else if epochs > curEpoch then curEpoch + 1 else epochs
  }

  ghost function Sum(env: Env, indicator: Indicator, epochs: int): Option<int>
  {
    var cur := GetEpoch(env.mint.height);
    WindowSum(env, indicator, cur, WindowSize(cur, epochs))
  }

  ghost function Average(env: Env, indicator: Indicator, epochs: int): Option<int>
  {
    var n := WindowSize(GetEpoch(env.mint.height), epochs);
    match Sum(env, indicator, epochs)
    case None => None
    case Some(sum) => Some(if n == 0 then sum else Dec.QuoInt(sum, n))
  }

  /** The mean of non-negative values lies between the least and the greatest of the window. */
  lemma {:induction false} MeanWithinRange(env: Env, indicator: Indicator, epochs: int, low: nat, high: nat)
    requires var cur := GetEpoch(env.mint.height);
             forall e: nat :: cur - epochs < e <= cur ==>
               IndicatorAt(env, indicator, e).Some? && low <= IndicatorAt(env, indicator, e).value <= high
    requires epochs > 0
    ensures var mean := Average(env, indicator, epochs);
            mean.Some? && low <= mean.value <= high
  {
    var cur := GetEpoch(env.mint.height);
    var count := WindowSize(cur, epochs);
    SumWithinRange(Values(env, indicator, cur, count), low, high);
    QuotientWithin(WindowSum(env, indicator, cur, count).value, count, low, high);
  }

  lemma {:induction false} QuotientWithin(sum: int, count: nat, low: nat, high: nat)
    requires count > 0 && count * low <= sum <= count * high
    ensures low <= Dec.QuoInt(sum, count) <= high
  {
    Dec.TimesMonotone(0, count, low);
    var total: nat := sum;
    Dec.DivMonotone(count * low, total, count);
    Dec.DivMonotone(total, count * high, count);
    Dec.DivUnique(count * low, count, low);
    Dec.DivUnique(count * high, count, high);
  }

  lemma {:induction false} OneMoreInRange(count: nat, low: nat, high: nat, sum: int, v: int)
    requires count * low <= sum <= count * high && low <= v <= high
    ensures (count + 1) * low <= sum + v <= (count + 1) * high
  {
    Dec.OneMore(count, low);
    Dec.OneMore(count, high);
  }

  lemma {:induction false} SumWithinRange(vs: seq<Option<int>>, low: nat, high: nat)
    requires forall k :: 0 <= k < |vs| ==> vs[k].Some? && low <= vs[k].value <= high
    ensures SumOf(vs).Some? && |vs| * low <= SumOf(vs).value <= |vs| * high
    decreases |vs|
  {
    if vs != [] {
      var front, v := vs[..|vs| - 1], vs[|vs| - 1];
      SumWithinRange(front, low, high);
      OneMoreInRange(|front|, low, high, SumOf(front).value, v.value);
    }
  }

  // ---------------------------------------------------------------------------
  // Reading fills the tables, and changes no value

  lemma {:induction false} FoundBelow(rates: Rates, e: int, v: int, epoch: int)
    requires epoch < e
    ensures Found(rates[e := v], epoch) == Found(rates, epoch)
    decreases epoch
  {
    if epoch >= 0 && epoch !in rates {
      FoundBelow(rates, e, v, epoch - 1);
    }
  }

  /** Storing an answer changes no search that found something. */
  lemma {:induction false} FoundMemo(rates: Rates, e: int, epoch: int)
    requires Found(rates, epoch).Some? && WeightFound(rates, e).Some?
    ensures Found(rates[e := WeightFound(rates, e).value], epoch) == Found(rates, epoch)
    decreases epoch
  {
    if epoch != e && epoch !in rates {
      FoundMemo(rates, e, epoch - 1);
    }
  }

  lemma {:induction false} MemoInvisible(rates: Rates, e: nat, epoch: nat)
    requires WeightFound(rates, e).Some? && (epoch > e ==> WeightFound(rates, epoch).Some?)
    ensures WeightFound(rates[e := WeightFound(rates, e).value], epoch) == WeightFound(rates, epoch)
  {
    if epoch < e {
      FoundBelow(rates, e, WeightFound(rates, e).value, epoch);
    } else if Found(rates, epoch).Some? {
      FoundMemo(rates, e, epoch);
    }
  }

  /** The environments give the same values of every indicator for the epochs up to `last`. */
  ghost predicate SameUpTo(env: Env, env': Env, last: int)
  {
    && env'.prices == env.prices && env'.proceeds == env.proceeds && env'.bonded == env.bonded
    && env'.mint.height == env.mint.height && env'.mint.balances == env.mint.balances
    && Mint.SameLuna(env.mint.issuance, env'.mint.issuance, BookTotal(env.mint.balances, LUNA))
    && forall e: nat :: e <= last ==> WeightFound(env'.weights, e) == WeightFound(env.weights, e)
  }

  lemma {:induction false} SameValue(env: Env, env': Env, last: int, indicator: Indicator, epoch: nat)
    requires SameUpTo(env, env', last) && epoch <= last
    ensures IndicatorAt(env', indicator, epoch) == IndicatorAt(env, indicator, epoch)
  {
    assert Mint.Seigniorage(env'.mint, epoch) == Mint.Seigniorage(env.mint, epoch);
  }

  lemma {:induction false} SameSum(env: Env, env': Env, indicator: Indicator, last: int, count: nat)
    requires SameUpTo(env, env', last) && count <= last + 1
    ensures WindowSum(env', indicator, last, count) == WindowSum(env, indicator, last, count)
  {
    var vs, vs' := Values(env, indicator, last, count), Values(env', indicator, last, count);
    forall k | 0 <= k < count
      ensures vs'[k] == vs[k]
    {
      SameAt(env, env', indicator, last, count, k);
    }
    assert vs' == vs;
  }

  lemma {:induction false} SameAt(env: Env, env': Env, indicator: Indicator, last: int, count: nat, k: nat)
    requires SameUpTo(env, env', last) && k < count <= last + 1
    ensures Values(env', indicator, last, count)[k] == Values(env, indicator, last, count)[k]
  {
    SameValue(env, env', last, indicator, last - k);
  }

  lemma {:induction false} SameTransitive(a: Env, b: Env, c: Env, last: int)
    requires SameUpTo(a, b, last) && SameUpTo(b, c, last)
    ensures SameUpTo(a, c, last)
  {
  }

  /** What evaluating an indicator in an epoch does to the tables. */
  ghost predicate Evaluated(env: Env, env': Env, indicator: Indicator, epoch: nat)
  {
    && env' == env.(weights := env'.weights, mint := env'.mint)
    && env'.mint == env.mint.(issuance := env'.mint.issuance)
    && Mint.SameLuna(env.mint.issuance, env'.mint.issuance, BookTotal(env.mint.balances, LUNA))
    && (env'.weights == if indicator == TaxPerLuna then env.weights
                        else env.weights[epoch := Stored(WeightFound(env.weights, epoch))])
  }

  /** All epochs after `epoch` up to `last` have a weight to answer with. */
  ghost predicate AnsweredAfter(env: Env, indicator: Indicator, epoch: int, last: int)
  {
    indicator == TaxPerLuna || forall e: nat :: epoch < e <= last ==> WeightFound(env.weights, e).Some?
  }

  lemma {:induction false} EvaluatedSame(env: Env, env': Env, indicator: Indicator, epoch: nat, last: int)
    requires Evaluated(env, env', indicator, epoch) && IndicatorAt(env, indicator, epoch).Some?
    requires epoch <= last && AnsweredAfter(env, indicator, epoch, last)
    ensures SameUpTo(env, env', last) && AnsweredAfter(env, indicator, epoch - 1, last)
  {
    if indicator != TaxPerLuna {
      assert WeightFound(env.weights, epoch).Some?;
      forall e: nat | e <= last
        ensures WeightFound(env'.weights, e) == WeightFound(env.weights, e)
      {
        MemoInvisible(env.weights, epoch, e);
      }
    }
  }

  // ---------------------------------------------------------------------------
  // Tax rewards

  lemma {:induction false} GivenStep(m: map<Denom, Option<int>>, d: Denom)
    requires d in m && m[d].Some?
    ensures Total(Given(m)) == m[d].value + Total(Given(m - {d}))
  {
    assert Given(m) - {d} == Given(m - {d});
    TotalRemove(Given(m), d);
  }

  /** The loop of `TaxRewardsForEpoch` over the values of the coins, in any order. */
  method SumValues(m: map<Denom, Option<int>>) returns (sum: Option<int>)
    ensures sum == SumAll(m)
  {
    var total := 0;
    var todo := m;
    while todo != map[]
      invariant forall d :: d in todo ==> d in m && todo[d] == m[d]
      invariant forall d :: d in m && d !in todo ==> m[d].Some?
      invariant total + Total(Given(todo)) == Total(Given(m))
      decreases todo
    {
      var d :| d in todo;
      if todo[d].None? {
        return None;
      }
      GivenStep(todo, d);
      total := total + todo[d].value;
      todo := todo - {d};
    }
    assert Given(todo) == map[];
    return Some(total);
  }

  method ComputeReward(prices: Market.Prices, weight: Option<int>, seigniorage: int) returns (reward: Option<int>)
    ensures reward == RewardOf(prices, weight, seigniorage)
  {
    if weight.None? {
      return None;
    }
    var luna := Dec.MulInt(weight.value, seigniorage);
    if luna < 0 {
      return None;
    }
    SumOfOne(LUNA, InSdr(prices, LUNA, luna));
    assert EachInSdr(prices, map[LUNA := luna]) == map[LUNA := InSdr(prices, LUNA, luna)];
    return InSdr(prices, LUNA, luna);
  }

  lemma {:induction false} SumOfOne(d: Denom, v: Option<int>)
    ensures SumAll(map[d := v]) == v
  {
    var m := map[d := v];
    assert d in m;
    if v.Some? {
      assert Given(m) == map[d := v.value];
      TotalRemove(Given(m), d);
      assert Given(m) - {d} == map[];
    }
  }

  // ---------------------------------------------------------------------------
  // The keeper

  /** How many epochs the indicators look back, and from which epoch on they are used. */
  datatype Windows = Windows(short: int, long: int, probation: int)

  class Keeper {
    const mk: Mint.Keeper
    const params: Params
    const windows: Windows
    var taxRates: Rates
    var weights: Rates
    var proceeds: map<int, Coins>

    /** `InitGenesis`. */
    constructor (mk: Mint.Keeper, params: Params, windows: Windows, tax: int, weight: int)
      ensures this.mk == mk && this.params == params && this.windows == windows && proceeds == map[]
      ensures taxRates == GenesisState(tax, weight).taxRates && weights == GenesisState(tax, weight).weights
    {
      this.mk, this.params, this.windows := mk, params, windows;
      taxRates, weights, proceeds := map[0 := tax], map[0 := weight], map[];
    }

    /** The rates as a value; what was set before is not remembered by the store. */
    ghost function Value(): State
      reads this, mk
    {
      State(GetEpoch(mk.height), taxRates, weights, [], [])
    }

    ghost function EnvWith(prices: Market.Prices, bonded: int): Env
      reads this, mk
    {
      Env(weights, mk.Value(), prices, proceeds, bonded)
    }

    // Rates

    method SetTaxRate(rate: int)
      modifies this`taxRates
      ensures taxRates == SetTax(old(Value()), rate).taxRates
    {
      taxRates := taxRates[GetEpoch(mk.height) := rate];
    }

    method SetRewardWeight(weight: int)
      modifies this`weights
      ensures weights == SetWeight(old(Value()), weight).weights
    {
      weights := weights[GetEpoch(mk.height) := weight];
    }

    method GetTaxRate(epoch: nat) returns (rate: int)
      modifies this`taxRates
      ensures rate == TaxOf(old(Value()), epoch)
      ensures taxRates == TaxFilled(old(taxRates), epoch)
      decreases epoch
    {
      if epoch in taxRates {
        rate := taxRates[epoch];
      } else {
        if epoch <= 0 {
          rate := DEFAULT_TAX_RATE;
        } else {
          rate := GetTaxRate(epoch - 1);
        }
        taxRates := taxRates[epoch := rate];
      }
    }

    /** The answer is None where the code returns a decimal that was never set; that is stored as zero. */
    method GetRewardWeight(epoch: nat) returns (weight: Option<int>)
      modifies this`weights
      ensures weight == WeightOf(old(Value()), epoch)
      ensures weights == old(weights)[epoch := Stored(weight)]
    {
      if epoch in weights {
        weight := Some(weights[epoch]);
        assert weights == weights[epoch := weights[epoch]];
        return;
      }
      weight := None;
      var e: int := epoch;
      while e >= 0
        invariant -1 <= e <= epoch && weight == None
        invariant weights == old(weights)
        invariant Found(weights, epoch) == Found(weights, e)
        invariant epoch == 0 ==> e == epoch
        decreases e
      {
        if e in weights {
          weight := Some(weights[e]);
          break;
        } else if epoch <= 0 {
          weight := Some(DEFAULT_REWARD_WEIGHT);
          break;
        }
        e := e - 1;
      }
      weights := weights[epoch := Stored(weight)];
    }

    // Tax proceeds

    method RecordTaxProceeds(delta: Coins)
      modifies this`proceeds
      ensures ProceedsOf(proceeds, GetEpoch(mk.height))
              == AddCoins(ProceedsOf(old(proceeds), GetEpoch(mk.height)), delta)
      ensures forall e :: e != GetEpoch(mk.height) ==> ProceedsOf(proceeds, e) == ProceedsOf(old(proceeds), e)
    {
      var epoch := GetEpoch(mk.height);
      proceeds := proceeds[epoch := AddCoins(ProceedsOf(proceeds, epoch), delta)];
    }

    method TaxRewardsForEpoch(prices: Market.Prices, ghost bonded: int, epoch: int) returns (sum: Option<int>)
      ensures sum == TaxReward(EnvWith(prices, bonded), epoch)
    {
      sum := SumValues(EachInSdr(prices, DecCoins(ProceedsOf(proceeds, epoch))));
    }

    // Indicators

    method SeigniorageRewardsForEpoch(prices: Market.Prices, ghost bonded: int, epoch: nat)
      returns (reward: Option<int>)
      modifies this`weights, mk`issuance
      ensures reward == SeigniorageRewardOf(old(EnvWith(prices, bonded)), epoch)
      ensures Evaluated(old(EnvWith(prices, bonded)), EnvWith(prices, bonded), SeigniorageReward, epoch)
    {
      ghost var total := BookTotal(mk.balances, LUNA);
      Mint.ReadsKeepLuna(mk.issuance, total, Mint.FirstDay(mk.height, epoch), Mint.LastDay(mk.height, epoch));
      var seignioragePool := mk.PeekEpochSeigniorage(epoch);
      var weight := GetRewardWeight(epoch);
      reward := ComputeReward(prices, weight, seignioragePool);
    }

    /** One indicator in one epoch. */
    method Evaluate(prices: Market.Prices, bonded: int, indicator: Indicator, epoch: nat) returns (v: Option<int>)
      modifies this`weights, mk`issuance
      ensures v == IndicatorAt(old(EnvWith(prices, bonded)), indicator, epoch)
      ensures Evaluated(old(EnvWith(prices, bonded)), EnvWith(prices, bonded), indicator, epoch)
    {
      match indicator {
        case TaxPerLuna =>
          var tax := TaxRewardsForEpoch(prices, bonded, epoch);
          v := PerLuna(tax, bonded);
        case SeigniorageReward =>
          v := SeigniorageRewardsForEpoch(prices, bonded, epoch);
        case MiningReward =>
          var tax := TaxRewardsForEpoch(prices, bonded, epoch);
          var reward := SeigniorageRewardsForEpoch(prices, bonded, epoch);
          v := Both(tax, reward);
      }
    }

    /** One round of the loop: the sum with the indicator of epoch `i`. */
    method WalkOne(prices: Market.Prices, bonded: int, indicator: Indicator, ghost env: Env,
            ghost vs: seq<Option<int>>, i: nat, ghost last: nat, sum: int) returns (next: Option<int>)
      requires i <= last && vs == Values(env, indicator, last, last + 1)
      requires Walked(vs, env, EnvWith(prices, bonded), indicator, i, last, sum)
      modifies this`weights, mk`issuance
      ensures next.Some? ==> Walked(vs, env, EnvWith(prices, bonded), indicator, i - 1, last, next.value)
      ensures next.None? ==> SumOf(vs[..last - i + 1]) == None
    {
      ghost var before := EnvWith(prices, bonded);
      var v := Evaluate(prices, bonded, indicator, i);
      ValueIs(vs, env, before, indicator, i, last, v);
      SumOfStep(vs, last - i);
      if v.Some? {
        SameAfter(env, before, EnvWith(prices, bonded), indicator, i, last);
      }
      return Both(Some(sum), v);
    }

    /** The loop of `SumIndicator` and `RollingAverageIndicator`, backwards from the current epoch; `i` is where it
        stops. None where an indicator panics. */
    method WalkWindow(prices: Market.Prices, bonded: int, indicator: Indicator, epochs: int)
      returns (sum: Option<int>, i: int)
      modifies this`weights, mk`issuance
      ensures sum == Sum(old(EnvWith(prices, bonded)), indicator, epochs)
      ensures sum.Some? ==> SameUpTo(old(EnvWith(prices, bonded)), EnvWith(prices, bonded), GetEpoch(mk.height))
      ensures sum.Some? ==> GetEpoch(mk.height) - i == WindowSize(GetEpoch(mk.height), epochs)
    {
      var curEpoch := GetEpoch(mk.height);
      ghost var env := EnvWith(prices, bonded);
      ghost var vs := Values(env, indicator, curEpoch, curEpoch + 1);
      ValuesPrefix(env, indicator, curEpoch, WindowSize(curEpoch, epochs), vs);
      sum, i := Some(0), curEpoch;
      while i >= 0 && i > curEpoch - epochs
        invariant -1 <= i <= curEpoch && curEpoch - i <= WindowSize(curEpoch, epochs)
        invariant sum.Some? && Walked(vs, env, EnvWith(prices, bonded), indicator, i, curEpoch, sum.value)
        decreases i
      {
        sum := WalkOne(prices, bonded, indicator, env, vs, i, curEpoch, sum.value);
        if sum.None? {
          SumOfPanics(vs, curEpoch - i + 1, WindowSize(curEpoch, epochs));
          return;
        }
        i := i - 1;
      }
    }

    method SumIndicator(prices: Market.Prices, bonded: int, indicator: Indicator, epochs: int)
      returns (sum: Option<int>)
      modifies this`weights, mk`issuance
      ensures sum == Sum(old(EnvWith(prices, bonded)), indicator, epochs)
      ensures sum.Some? ==> SameUpTo(old(EnvWith(prices, bonded)), EnvWith(prices, bonded), GetEpoch(mk.height))
    {
      var i;
      sum, i := WalkWindow(prices, bonded, indicator, epochs);
    }

    method RollingAverageIndicator(prices: Market.Prices, bonded: int, indicator: Indicator, epochs: int)
      returns (average: Option<int>)
      modifies this`weights, mk`issuance
      ensures average == Average(old(EnvWith(prices, bonded)), indicator, epochs)
      ensures average.Some? ==> SameUpTo(old(EnvWith(prices, bonded)), EnvWith(prices, bonded), GetEpoch(mk.height))
    {
      var sum, i := WalkWindow(prices, bonded, indicator, epochs);
      if sum.None? {
        return None;
      }
      var computedEpochs := GetEpoch(mk.height) - i;
      if computedEpochs == 0 {
        return sum;
      }
      return Some(Dec.QuoInt(sum.value, computedEpochs));
    }

    // Policies

    /** `updateTaxPolicy`. False where an indicator panics. */
    method UpdateTaxPolicy(prices: Market.Prices, bonded: int) returns (ok: bool)
      modifies this`taxRates, this`weights, mk`issuance
      ensures var env := old(EnvWith(prices, bonded));
              var year, month := Average(env, TaxPerLuna, windows.long), Average(env, TaxPerLuna, windows.short);
              && (ok <==> year.Some? && month.Some?)
              && (ok ==> taxRates == UpdateTax(old(Value()), params, year.value, month.value).taxRates)
              && (ok ==> SameUpTo(env, EnvWith(prices, bonded), GetEpoch(mk.height)))
    {
      ghost var env := EnvWith(prices, bonded);
      var oldTaxRate := GetTaxRate(GetEpoch(mk.height));
      var tlYear := RollingAverageIndicator(prices, bonded, TaxPerLuna, windows.long);
      if tlYear.None? {
        return false;
      }
      ghost var mid := EnvWith(prices, bonded);
      SameAverage(env, mid, TaxPerLuna, windows.short);
      var tlMonth := RollingAverageIndicator(prices, bonded, TaxPerLuna, windows.short);
      if tlMonth.None? {
        return false;
      }
      SameTransitive(env, mid, EnvWith(prices, bonded), GetEpoch(mk.height));
      var newTaxRate := TaxTarget(params.tax, oldTaxRate, tlYear.value, tlMonth.value, params.increment);
      SetTaxRate(Clamp(params.tax, oldTaxRate, newTaxRate));
      return true;
    }

    /** `updateRewardPolicy`. False where it panics: on an indicator, a weight that was never set, or a seigniorage
        burden that rounds to zero. */
    method UpdateRewardPolicy(prices: Market.Prices, bonded: int) returns (ok: bool)
      modifies this`weights, mk`issuance
      ensures var updated := RewardUpdate(old(Value()), params, windows, old(EnvWith(prices, bonded)));
              && (ok <==> updated.Some?)
              && (ok ==> SameWeights(weights, updated.value.weights, GetEpoch(mk.height)))
      ensures ok ==> Mint.SameLuna(old(mk.issuance), mk.issuance, BookTotal(mk.balances, LUNA))
    {
      ghost var env := EnvWith(prices, bonded);
      var curEpoch := GetEpoch(mk.height);
      var oldWeight := GetRewardWeight(curEpoch);
      if oldWeight.None? {
        return false;
      }
      ghost var first := EnvWith(prices, bonded);
      MemoSame(env, first, curEpoch);
      SameAverage(env, first, SeigniorageReward, windows.short);
      var seigniorageSum := SumIndicator(prices, bonded, SeigniorageReward, windows.short);
      if seigniorageSum.None? {
        return false;
      }
      ghost var second := EnvWith(prices, bonded);
      SameTransitive(env, first, second, curEpoch);
      SameAverage(env, second, MiningReward, windows.short);
      var totalSum := SumIndicator(prices, bonded, MiningReward, windows.short);
      if totalSum.None? {
        return false;
      }
      SameTransitive(env, second, EnvWith(prices, bonded), curEpoch);
      var newWeight := NewWeight(oldWeight, params, seigniorageSum.value, totalSum.value);
      if newWeight.None? {
        return false;
      }
      SetSame(env.weights, weights, curEpoch, newWeight.value);
      SetRewardWeight(newWeight.value);
      return true;
    }

    /** `EndBlocker`: nothing but at the last block of an epoch that is not within the probation period. */
    method EndBlocker(prices: Market.Prices, bonded: int) returns (ok: bool)
      modifies this`taxRates, this`weights, mk`issuance
      ensures var idle := !IsPeriodLastBlock(mk.height, BLOCKS_PER_EPOCH)
                          || GetEpoch(mk.height + 1) < windows.probation;
              var env := old(EnvWith(prices, bonded));
              var year, month := Average(env, TaxPerLuna, windows.long), Average(env, TaxPerLuna, windows.short);
              var updated := RewardUpdate(old(Value()), params, windows, env);
              if idle then ok && unchanged(this) && unchanged(mk)
              else
                && (ok <==> year.Some? && month.Some? && updated.Some?)
                && (ok ==> taxRates == UpdateTax(old(Value()), params, year.value, month.value).taxRates)
                && (ok ==> SameWeights(weights, updated.value.weights, GetEpoch(mk.height)))
      ensures ok ==> Mint.SameLuna(old(mk.issuance), mk.issuance, BookTotal(mk.balances, LUNA))
    {
      if !IsPeriodLastBlock(mk.height, BLOCKS_PER_EPOCH) || GetEpoch(mk.height + 1) < windows.probation {
        return true;
      }
      ghost var env, s := EnvWith(prices, bonded), Value();
      ok := UpdateTaxPolicy(prices, bonded);
      if ok {
        SameUpdate(s, Value(), params, windows, env, EnvWith(prices, bonded));
        ok := UpdateRewardPolicy(prices, bonded);
      }
    }
  }

  /** The reward step of the controller with the sums the environment yields. */
  ghost function RewardUpdate(s: State, p: Params, windows: Windows, env: Env): Option<State>
  {
    match (Sum(env, SeigniorageReward, windows.short), Sum(env, MiningReward, windows.short))
    case (Some(seigniorage), Some(total)) => UpdateWeight(s, p, seigniorage, total)
    case (_, _) => None
  }

  /** The tables give the same answers up to an epoch. */
  ghost predicate SameWeights(rates: Rates, rates': Rates, last: int)
  {
    forall e: nat :: e <= last ==> WeightFound(rates', e) == WeightFound(rates, e)
  }

  lemma {:induction false} SameAverage(env: Env, env': Env, indicator: Indicator, epochs: int)
    requires SameUpTo(env, env', GetEpoch(env.mint.height))
    ensures Sum(env', indicator, epochs) == Sum(env, indicator, epochs)
    ensures Average(env', indicator, epochs) == Average(env, indicator, epochs)
  {
    var cur := GetEpoch(env.mint.height);
    SameSum(env, env', indicator, cur, WindowSize(cur, epochs));
  }

  /** Storing the current epoch's answer changes no answer up to it. */
  lemma {:induction false} MemoSame(env: Env, env': Env, epoch: nat)
    requires WeightFound(env.weights, epoch).Some?
    requires env' == env.(weights := env.weights[epoch := Stored(WeightFound(env.weights, epoch))])
    ensures SameUpTo(env, env', epoch)
  {
    forall e: nat | e <= epoch
      ensures WeightFound(env'.weights, e) == WeightFound(env.weights, e)
    {
      MemoInvisible(env.weights, epoch, e);
    }
  }

  /** Setting the current epoch's weight in tables with the same answers leaves the same answers. */
  lemma {:induction false} SetSame(rates: Rates, rates': Rates, epoch: nat, weight: int)
    requires SameWeights(rates, rates', epoch)
    ensures SameWeights(rates'[epoch := weight], rates[epoch := weight], epoch)
  {
    var set1, set2 := rates[epoch := weight], rates'[epoch := weight];
    forall e: nat | e <= epoch
      ensures WeightFound(set1, e) == WeightFound(set2, e)
    {
      if e < epoch {
        FoundBelow(rates, epoch, weight, e);
        FoundBelow(rates', epoch, weight, e);
        assert WeightFound(rates', e) == WeightFound(rates, e);
      }
    }
  }

  /** The tax step changes nothing the reward step looks at. */
  lemma {:induction false} SameUpdate(s: State, s': State, p: Params, windows: Windows, env: Env, env': Env)
    requires SameUpTo(env, env', GetEpoch(env.mint.height)) && s.epoch == s'.epoch == GetEpoch(env.mint.height)
    requires s.weights == env.weights && s'.weights == env'.weights
    ensures var u, u' := RewardUpdate(s, p, windows, env), RewardUpdate(s', p, windows, env');
            && (u.Some? <==> u'.Some?)
            && (u.Some? ==> SameWeights(u'.value.weights, u.value.weights, s.epoch))
  {
    SameAverage(env, env', SeigniorageReward, windows.short);
    SameAverage(env, env', MiningReward, windows.short);
    var u := RewardUpdate(s, p, windows, env);
    if u.Some? {
      SetSame(s.weights, s'.weights, s.epoch, u.value.weights[s.epoch]);
    }
  }

  /** The epochs after `i` have been added up, without a panic and without changing any value. */
  ghost predicate Walked(vs: seq<Option<int>>, env: Env, now: Env, indicator: Indicator, i: int, last: nat, sum: int)
    requires -1 <= i <= last && |vs| == last + 1
  {
    && SumOf(vs[..last - i]) == Some(sum)
    && SameUpTo(env, now, last) && AnsweredAfter(env, indicator, i, last)
  }

  lemma {:induction false} ValueIs(vs: seq<Option<int>>, env: Env, now: Env, indicator: Indicator, i: nat, last: nat,
          v: Option<int>)
    requires i <= last && vs == Values(env, indicator, last, last + 1) && SameUpTo(env, now, last)
    requires v == IndicatorAt(now, indicator, i)
    ensures v == vs[last - i]
  {
    SameValue(env, now, last, indicator, i);
  }

  /** One epoch further back no value has changed either. */
  lemma {:induction false} SameAfter(env: Env, before: Env, after: Env, indicator: Indicator, i: nat, last: nat)
    requires i <= last && SameUpTo(env, before, last) && AnsweredAfter(env, indicator, i, last)
    requires Evaluated(before, after, indicator, i) && IndicatorAt(before, indicator, i).Some?
    ensures SameUpTo(env, after, last) && AnsweredAfter(env, indicator, i - 1, last)
  {
    EvaluatedSame(before, after, indicator, i, last);
    SameTransitive(env, before, after, last);
  }
}
