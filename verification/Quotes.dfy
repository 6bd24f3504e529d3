/** What the quotes of x/market promise: the amount at the oracle's prices, the spread, the fee, and the exchange. */
module Quotes {
  import opened Wrappers
  import opened Sums
  import opened Coins
  import opened Epoch
  import opened Market
  import Dec
  import Mint
  import RoundTrip

  /** What one Luna costs in a denomination, according to the oracle; one Luna costs one Luna. */
  function LunaPrice(prices: Prices, d: Denom): int
  {
    if d == LUNA then Dec.ONE else Get(prices, d)
  }

  /** `paid` is what `offered` is worth at the two prices, to within half of 10^-18, rounded down to a whole coin. */
  predicate Worth(paid: int, offered: int, offerPrice: int, askPrice: int)
  {
    && 2 * Dec.ONE * (paid * offerPrice - offered * askPrice) <= offerPrice
    && offerPrice < 2 * Dec.ONE * ((paid + 1) * offerPrice - offered * askPrice)
  }

  lemma {:induction false} AmountIsWorth(n: nat, offerRate: nat, askRate: nat)
    requires offerRate > 0
    ensures Worth(SwapAmount(n, offerRate, askRate), n, offerRate, askRate)
  {
    RoundTrip.SwapAmountBounds(n, offerRate, askRate);
    var k: nat := SwapAmount(n, offerRate, askRate);
    RoundTrip.SwapReaches(n, offerRate, askRate, k + 1);
  }

  /** Every quote, internal or not, pays what the offer is worth at the prices in the store, and never nothing. */
  lemma {:induction false} QuotePaysPrices(params: Params, prices: Prices, day: nat, yesterday: int, today: int,
          o: Offer, isInternal: bool)
    requires LunaPrice(prices, o.denom) > 0 && LunaPrice(prices, o.ask) > 0 && o.amount >= 0
    ensures var r := GetSwapCoin(params, prices, day, yesterday, today, o, isInternal);
            r.Ok? ==>
              && r.value.amount > 0
              && Worth(r.value.amount, o.amount, LunaPrice(prices, o.denom), LunaPrice(prices, o.ask))
  {
    AmountIsWorth(o.amount, LunaPrice(prices, o.denom), LunaPrice(prices, o.ask));
  }

  /** No spread is charged on internal swaps and on those between Terra currencies. */
  lemma {:induction false} FreeOfSpread(params: Params, prices: Prices, day: nat, yesterday: int, today: int, o: Offer,
          isInternal: bool)
    requires isInternal || (o.denom != LUNA && o.ask != LUNA)
    ensures var r := GetSwapCoin(params, prices, day, yesterday, today, o, isInternal);
            r.Ok? ==> r.value.spread == 0 && SwapFee(r.value) == 0
  {
  }

  // ---------------------------------------------------------------------------
  // The spread

  /** A quotient of decimals is off by less than one in the last digit. */
  lemma {:induction false} QuoClose(a: nat, b: nat)
    requires b > 0
    ensures Dec.Abs(Dec.Quo(a, b) * b - a * Dec.ONE) <= b
  {
    var scaled: nat := a * Dec.ONE * Dec.ONE;
    var q: nat := scaled / b;
    Dec.DivBounds(scaled, b);
    Dec.ChopNearest(q);
    ChopOfQuotient(a, b, q, Dec.Chop(q));
  }

  lemma {:induction false} ChopOfQuotient(a: nat, b: nat, q: nat, u: int)
    requires b > 0 && q * b <= a * Dec.ONE * Dec.ONE < q * b + b && 2 * Dec.Abs(q - u * Dec.ONE) <= Dec.ONE
    ensures Dec.Abs(u * b - a * Dec.ONE) <= b
  {
    AbsTimes(2 * (q - u * Dec.ONE), Dec.ONE, b);
    Split(q, u, b);
    Near(2 * (q - u * Dec.ONE) * b, q * b, u * b, a, b);
  }

  lemma {:induction false} Split(q: int, u: int, b: int)
    ensures 2 * (q - u * Dec.ONE) * b == 2 * (q * b) - 2 * Dec.ONE * (u * b)
  {
  }

  lemma {:induction false} Near(error: int, product: int, chopped: int, a: nat, b: nat)
    requires error == 2 * product - 2 * Dec.ONE * chopped && Dec.Abs(error) <= Dec.ONE * b
    requires product <= a * Dec.ONE * Dec.ONE < product + b
    ensures Dec.Abs(chopped - a * Dec.ONE) <= b
  {
  }

  /** The spread grows from its minimum to its maximum in proportion to the change of the supply: up to rounding it is
      the minimum plus `delta / cap` of the difference. */
  lemma {:induction false} SpreadIsLinear(params: Params, amount: nat, delta: nat)
    requires delta <= params.dailyLunaDeltaCap && 0 < params.dailyLunaDeltaCap
    requires params.minSwapSpread <= params.maxSwapSpread
    ensures var cap, range := params.dailyLunaDeltaCap, params.maxSwapSpread - params.minSwapSpread;
            var r := LunaQuote(params, amount, delta);
            && r.Ok? && r.value.amount == amount
            && 2 * Dec.ONE * Dec.Abs((r.value.spread - params.minSwapSpread) * cap - delta * range)
               <= cap * (Dec.ONE + 2 * range)
  {
    var cap, range: nat := params.dailyLunaDeltaCap, params.maxSwapSpread - params.minSwapSpread;
    QuoClose(delta, cap);
    var u := Dec.Quo(delta, cap);
    Dec.ChopNearest(u * range);
    Proportional(cap, range, delta, u, Dec.Mul(u, range));
  }

  lemma {:induction false} Proportional(cap: nat, range: nat, delta: nat, u: int, share: int)
    requires Dec.Abs(u * cap - delta * Dec.ONE) <= cap && 2 * Dec.Abs(u * range - share * Dec.ONE) <= Dec.ONE
    ensures 2 * Dec.ONE * Dec.Abs(share * cap - delta * range) <= cap * (Dec.ONE + 2 * range)
  {
    AbsDifference(u, cap, delta, Dec.ONE, cap, range);
    OtherHalf(cap, range, u, share);
    Combined(u * cap * range, delta * range, share * cap, cap * range, cap);
    Distributed(cap, range);
  }

  lemma {:induction false} OtherHalf(cap: nat, range: nat, u: int, share: int)
    requires 2 * Dec.Abs(u * range - share * Dec.ONE) <= Dec.ONE
    ensures Dec.Abs(2 * (u * cap * range) - 2 * (share * cap) * Dec.ONE) <= Dec.ONE * cap
  {
    AbsDifference(2 * u, range, 2 * share, Dec.ONE, Dec.ONE, cap);
    Regrouped(u, range, cap, share);
  }

  lemma {:induction false} Regrouped(u: int, range: int, cap: int, share: int)
    ensures 2 * u * range * cap == 2 * (u * cap * range) && 2 * share * cap == 2 * (share * cap)
  {
  }

  lemma {:induction false} Distributed(cap: int, range: int)
    ensures cap * (Dec.ONE + 2 * range) == Dec.ONE * cap + 2 * (cap * range)
  {
  }

  lemma {:induction false} Combined(p: int, x: int, y: int, w: int, cap: int)
    requires Dec.Abs(p - x * Dec.ONE) <= w && Dec.Abs(2 * p - 2 * y * Dec.ONE) <= Dec.ONE * cap
    ensures 2 * Dec.ONE * Dec.Abs(y - x) <= Dec.ONE * cap + 2 * w
  {
  }

  lemma {:induction false} AbsDifference(a: int, b: int, c: int, d: int, bound: nat, k: nat)
    requires Dec.Abs(a * b - c * d) <= bound
    ensures Dec.Abs(a * b * k - c * k * d) <= bound * k
  {
    AbsTimes(a * b - c * d, bound, k);
    assert (a * b - c * d) * k == a * b * k - c * k * d;
  }

  lemma {:induction false} AbsTimes(x: int, bound: nat, b: nat)
    requires Dec.Abs(x) <= bound
    ensures Dec.Abs(x * b) <= bound * b
  {
    Dec.TimesMonotone(x, bound, b);
    var low: int := 0 - bound;
    Dec.TimesMonotone(low, x, b);
    assert low * b == -(bound * b);
  }

  /** `delta` is by which part of yesterday's Luna supply today's would differ from it after a change, rounded down to
      the last digit; nothing on the first day and where there was no supply. */
  predicate DeltaIs(day: nat, yesterday: nat, today: int, change: int, delta: nat)
  {
    if day == 0 || yesterday == 0 then delta == 0
    else delta * yesterday <= Dec.ONE * Dec.Abs(today + change - yesterday) < delta * yesterday + yesterday
  }

  lemma {:induction false} DeltaOfChange(day: nat, yesterday: nat, today: int, change: int, delta: nat)
    requires DeltaIs(day, yesterday, today, change, delta)
    ensures Dec.Abs(LunaDelta(day, yesterday, today, change)) == delta
  {
    if day != 0 && yesterday != 0 {
      var x: nat := Dec.ONE * Dec.Abs(today + change - yesterday);
      Dec.DivUnique(x, yesterday, delta);
    }
  }

  /** How far a spread may be off the line from the minimum to the maximum. */
  predicate OnTheLine(params: Params, spread: int, delta: int)
  {
    var cap, range := params.dailyLunaDeltaCap, params.maxSwapSpread - params.minSwapSpread;
    2 * Dec.ONE * Dec.Abs((spread - params.minSwapSpread) * cap - delta * range) <= cap * (Dec.ONE + 2 * range)
  }

  /** A swap that burns or mints Luna is quoted exactly when the day's change of the supply stays within the cap with
      what the swap itself would burn or mint, and its spread is then in proportion to that change. */
  lemma {:induction false} LunaSwapSpread(params: Params, prices: Prices, day: nat, yesterday: nat, today: int,
          o: Offer, amount: int, delta: nat)
    requires LunaPrice(prices, o.denom) > 0 && LunaPrice(prices, o.ask) > 0 && o.amount >= 0 && InvolvesLuna(o)
    requires HasRate(prices, o.denom) && HasRate(prices, o.ask)
    requires 0 < params.dailyLunaDeltaCap && params.minSwapSpread <= params.maxSwapSpread
    requires Worth(amount, o.amount, LunaPrice(prices, o.denom), LunaPrice(prices, o.ask))
    requires DeltaIs(day, yesterday, today, if o.denom == LUNA then -o.amount else amount, delta)
    ensures var r := GetSwapCoin(params, prices, day, yesterday, today, o, false);
            if amount == 0 then r == Err(InsufficientSwapCoins)
            else if delta > params.dailyLunaDeltaCap then r == Err(ExceedsDailySwapLimit)
            else r.Ok? && r.value.amount == amount && OnTheLine(params, r.value.spread, delta)
  {
    var offerPrice, askPrice: nat := LunaPrice(prices, o.denom), LunaPrice(prices, o.ask);
    AmountIsWorth(o.amount, offerPrice, askPrice);
    WorthIsUnique(amount, SwapAmount(o.amount, offerPrice, askPrice), o.amount, offerPrice, askPrice);
    SwapAmountNotNegative(o.amount, offerPrice, askPrice);
    DeltaOfChange(day, yesterday, today, if o.denom == LUNA then -o.amount else amount, delta);
    if delta <= params.dailyLunaDeltaCap {
      SpreadIsLinear(params, amount, delta);
    }
  }

  lemma {:induction false} SwapAmountNotNegative(n: nat, offerRate: nat, askRate: nat)
    requires offerRate > 0
    ensures SwapAmount(n, offerRate, askRate) >= 0
  {
    RoundTrip.SwapAmountBounds(n, offerRate, askRate);
  }

  /** Only one amount is what an offer is worth. */
  lemma {:induction false} WorthIsUnique(a: int, b: int, offered: int, offerPrice: nat, askPrice: nat)
    requires Worth(a, offered, offerPrice, askPrice) && Worth(b, offered, offerPrice, askPrice)
    ensures a == b
  {
    if a < b {
      WorthOrder(a, b, offered, offerPrice, askPrice);
    } else if b < a {
      WorthOrder(b, a, offered, offerPrice, askPrice);
    }
  }

  lemma {:induction false} WorthOrder(a: int, b: int, offered: int, offerPrice: nat, askPrice: nat)
    requires Worth(a, offered, offerPrice, askPrice) && Worth(b, offered, offerPrice, askPrice)
    ensures b <= a
  {
    if a < b {
      Dec.TimesMonotone(a + 1, b, offerPrice);
      Combination((a + 1) * offerPrice, b * offerPrice, offered * askPrice, offerPrice);
    }
  }

  lemma {:induction false} Combination(x: int, y: int, worth: int, price: int)
    requires x <= y && 2 * Dec.ONE * (y - worth) <= price
    ensures !(price < 2 * Dec.ONE * (x - worth))
  {
  }

  /** The fee is the spread on the quoted amount, rounded down, and nothing for a spread that is not positive. */
  lemma {:induction false} FeeIsSpread(q: Quote)
    requires q.amount >= 0
    ensures q.spread <= 0 ==> SwapFee(q) == 0
    ensures q.spread > 0 ==> SwapFee(q) * Dec.ONE <= q.spread * q.amount < (SwapFee(q) + 1) * Dec.ONE
  {
    if q.spread > 0 {
      var x: nat := Dec.Product(q.spread, q.amount);
      Dec.DivBounds(x, Dec.ONE);
    }
  }

  // ---------------------------------------------------------------------------
  // Decimal swaps

  /** `GetSwapDecCoin` pays what the offer is worth at the prices, to within one in the last digit of each rounding. */
  lemma {:induction false} DecSwapPaysPrices(prices: Prices, offer: Denom, amount: nat, ask: Denom)
    requires LunaPrice(prices, offer) > 0 && LunaPrice(prices, ask) > 0
    ensures var r := GetSwapDecCoin(prices, offer, amount, ask);
            r.Ok? ==>
              && r.value > 0
              && 2 * Dec.Abs(r.value * LunaPrice(prices, offer) - amount * LunaPrice(prices, ask))
                 <= 2 * LunaPrice(prices, offer) + Dec.ONE
  {
    var o, a: nat := LunaPrice(prices, offer), LunaPrice(prices, ask);
    var x: nat := Dec.Product(amount, a);
    Dec.ChopNearest(x);
    var m: nat := Dec.Chop(x);
    QuoClose(m, o);
  }

  /** What is not enough for a quote is worth nothing, by the same measure. */
  lemma {:induction false} DecSwapValue(prices: Prices, offer: Denom, amount: nat, ask: Denom)
    requires LunaPrice(prices, offer) > 0 && LunaPrice(prices, ask) > 0 && offer != ask
    ensures var r := GetSwapDecCoin(prices, offer, amount, ask);
            r.Err? ==>
              && r.error != Panicked
              && 2 * (amount * LunaPrice(prices, ask)) <= 2 * LunaPrice(prices, offer) + Dec.ONE
  {
    var o, a: nat := LunaPrice(prices, offer), LunaPrice(prices, ask);
    var x: nat := Dec.Product(amount, a);
    Dec.ChopNearest(x);
    var m: nat := Dec.Chop(x);
    QuoClose(m, o);
  }

  // ---------------------------------------------------------------------------
  // What a swap moves

  /** An accepted swap takes the offer from the trader and gives it the quoted amount less the fee; no other balance of
      anybody moves. */
  lemma {:induction false} SwapPays(s: Mint.State, params: Params, prices: Prices, trader: Addr, o: Offer, a: Addr,
          e: Denom)
    requires Swap(s, params, prices, trader, o).Ok?
    ensures var q := QuoteIn(s, params, prices, o);
            && q.Ok?
            && Get(Row(Swap(s, params, prices, trader, o).value.mint.balances, a), e)
               == Get(Row(s.balances, a), e)
                  + (if a == trader && e == o.ask then q.value.amount - SwapFee(q.value) else 0)
                  - (if a == trader && e == o.denom then o.amount else 0)
  {
    var q := QuoteIn(s, params, prices, o).value;
    ReadsKeepBalances(s, o);
    ExchangePays(AfterReads(s, o), trader, o, q.amount, SwapFee(q));
    CreditTwice(s.balances, trader, o.denom, -o.amount, o.ask, q.amount - SwapFee(q), a, e);
  }

  lemma {:induction false} ReadsKeepBalances(s: Mint.State, o: Offer)
    ensures AfterReads(s, o).balances == s.balances
  {
  }

  lemma {:induction false} BurnPays(s: Mint.State, payer: Addr, d: Denom, amount: int)
    requires Mint.BurnCoin(s, payer, d, amount).Ok?
    ensures Mint.BurnCoin(s, payer, d, amount).value.balances == Credit(s.balances, payer, map[d := -amount])
  {
  }

  lemma {:induction false} MintPays(s: Mint.State, recipient: Addr, d: Denom, amount: int)
    requires Mint.MintCoin(s, recipient, d, amount).Ok?
    ensures Mint.MintCoin(s, recipient, d, amount).value.balances == Credit(s.balances, recipient, map[d := amount])
  {
  }

  lemma {:induction false} ExchangePays(s: Mint.State, trader: Addr, o: Offer, amount: int, fee: int)
    requires Exchange(s, trader, o, amount, fee).Ok?
    ensures Exchange(s, trader, o, amount, fee).value.mint.balances
         == Credit(Credit(s.balances, trader, map[o.denom := -o.amount]), trader, map[o.ask := amount - fee])
  {
    BurnPays(s, trader, o.denom, o.amount);
    match Mint.BurnCoin(s, trader, o.denom, o.amount)
    case Ok(burnt) => MintPays(burnt, trader, o.ask, amount - fee);
  }

  lemma {:induction false} CreditTwice(b: Book, r: Addr, d: Denom, x: int, d': Denom, y: int, a: Addr, e: Denom)
    ensures Get(Row(Credit(Credit(b, r, map[d := x]), r, map[d' := y]), a), e)
         == Get(Row(b, a), e) + (if a == r && e == d' then y else 0) + (if a == r && e == d then x else 0)
  {
    CreditRow(b, r, d, x, a, e);
    CreditRow(Credit(b, r, map[d := x]), r, d', y, a, e);
  }
}
