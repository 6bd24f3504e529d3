/** Which market parameters let a swap panic (x/market/keeper.go, x/market/handler.go). */
module SwapPanics {
  import opened Wrappers
  import opened Sums
  import opened Coins
  import opened Epoch
  import opened Market
  import Dec
  import Mint
  import RoundTrip

  /** What `validateParams` demands. */
  predicate Valid(params: Params)
  {
    0 <= params.dailyLunaDeltaCap && 0 <= params.minSwapSpread <= params.maxSwapSpread
  }

  ghost predicate Positive(prices: Prices) { forall d :: d in prices ==> prices[d] > 0 }

  /** Some swap of a positive amount at positive prices panics in some sound state. */
  ghost predicate CanPanic(params: Params)
  {
    exists s: Mint.State, prices: Prices, trader: Addr, o: Offer ::
      && Mint.Sound(s) && Positive(prices) && o.amount > 0
      && Swap(s, params, prices, trader, o) == Err(Panicked)
  }

  // ---------------------------------------------------------------------------
  // No panic

  lemma {:induction false} QuoteCovered(params: Params, amount: nat, delta: nat)
    requires Valid(params) && params.dailyLunaDeltaCap > 0 && params.maxSwapSpread <= Dec.ONE
    ensures var q := LunaQuote(params, amount, delta);
            q == Err(ExceedsDailySwapLimit) || (q.Ok? && SwapFee(q.value) <= q.value.amount)
  {
    if delta <= params.dailyLunaDeltaCap {
      SpreadGrows(params, amount, delta, delta);
      FeeOf(LunaQuote(params, amount, delta).value.spread, amount);
    }
  }

  /** A quote that did not panic and covers its fee. */
  predicate Safe(q: Result<Quote, Error>)
  {
    q != Err(Panicked) && (q.Ok? ==> SwapFee(q.value) <= q.value.amount)
  }

  lemma {:induction false} QuoteIsSafe(params: Params, prices: Prices, day: nat, yesterday: int, today: int, o: Offer)
    requires Valid(params) && params.dailyLunaDeltaCap > 0 && params.maxSwapSpread <= Dec.ONE
    requires Positive(prices) && o.amount > 0
    ensures Safe(GetSwapCoin(params, prices, day, yesterday, today, o, false))
  {
    if HasRate(prices, o.denom) && HasRate(prices, o.ask) {
      var amount := SwapAmount(o.amount, Rate(prices, o.denom), Rate(prices, o.ask));
      RoundTrip.SwapAmountBounds(o.amount, Rate(prices, o.denom), Rate(prices, o.ask));
      var change := if o.denom == LUNA then -o.amount else amount;
      QuoteCovered(params, amount, Dec.Abs(LunaDelta(day, yesterday, today, change)));
    }
  }

  lemma {:induction false} SafeExchange(q: Result<Quote, Error>, s: Mint.State, trader: Addr, o: Offer)
    requires Safe(q)
    ensures ExchangeQuoted(q, s, trader, o) != Err(Panicked)
  {
  }

  lemma {:induction false} NoPanic(s: Mint.State, params: Params, prices: Prices, trader: Addr, o: Offer)
    requires Valid(params) && params.dailyLunaDeltaCap > 0 && params.maxSwapSpread <= Dec.ONE
    requires Positive(prices) && o.amount > 0
    ensures Swap(s, params, prices, trader, o) != Err(Panicked)
  {
    var today := Day(s.height);
    QuoteIsSafe(params, prices, today, IssuanceOn(s, LUNA, Day(s.height) - 1), IssuanceOn(s, LUNA, today), o);
    SafeExchange(QuoteIn(s, params, prices, o), AfterReads(s, o), trader, o);
  }

  // ---------------------------------------------------------------------------
  // Two ways to panic

  const TRADER: Addr := Addr("trader")
  const HOLDER: Addr := Addr("holder")
  const PRICES: Prices := map[SDR := Dec.ONE]

  /** A cap of zero is divided by. */
  lemma {:induction false} ZeroCapPanics(params: Params)
    requires params.dailyLunaDeltaCap == 0
    ensures CanPanic(params)
  {
    var s := Mint.State(0, map[], map[]);
    var o := Offer(SDR, 1, LUNA);
    RoundTrip.UnitSwap(1);
    assert Swap(s, params, PRICES, TRADER, o) == Err(Panicked);
    assert Mint.Sound(s) && Positive(PRICES) && o.amount > 0;
  }

  /** The second day of a chain with 10^36 Luna and a trader who has `n` SDR. */
  ghost function SecondDay(n: nat): Mint.State
  {
    Mint.State(BLOCKS_PER_DAY, map[HOLDER := map[LUNA := Dec.ONE * Dec.ONE], TRADER := map[SDR := n]], map[])
  }

  lemma {:induction false} SecondDayIssuance(n: nat)
    ensures Mint.Sound(SecondDay(n)) && Day(SecondDay(n).height) == 1
    ensures IssuanceOn(SecondDay(n), LUNA, 0) == IssuanceOn(SecondDay(n), LUNA, 1) == Dec.ONE * Dec.ONE
  {
    var s := SecondDay(n);
    var luna := Column(s.balances, LUNA);
    assert luna == map[HOLDER := Dec.ONE * Dec.ONE, TRADER := 0];
    TotalRemove(luna, HOLDER);
    TotalRemove(luna - {HOLDER}, TRADER);
    assert luna - {HOLDER} - {TRADER} == map[];
    Mint.UntrackedLookup(s, LUNA, 0);
    Mint.UntrackedLookup(s, LUNA, 1);
  }

  /** Buying as much Luna as the cap allows costs the maximal spread, which is more than was asked for. */
  lemma {:induction false} WideSpreadPanics(params: Params)
    requires Valid(params) && params.dailyLunaDeltaCap > 0 && params.maxSwapSpread > Dec.ONE
    ensures CanPanic(params)
  {
    var cap, amount: nat := params.dailyLunaDeltaCap, params.dailyLunaDeltaCap * Dec.ONE;
    var s, o := SecondDay(amount), Offer(SDR, amount, LUNA);
    SecondDayIssuance(amount);
    RoundTrip.UnitSwap(amount);
    assert LunaDelta(1, Dec.ONE * Dec.ONE, Dec.ONE * Dec.ONE, amount) == cap;
    SpreadGrows(params, amount, cap, cap);
    assert QuoteIn(s, params, PRICES, o) == Ok(Quote(amount, params.maxSwapSpread));
    WideFee(params.maxSwapSpread, cap);
    assert Swap(s, params, PRICES, TRADER, o) == Err(Panicked);
    assert Positive(PRICES) && o.amount > 0;
  }

  lemma {:induction false} WideFee(spread: int, cap: nat)
    requires spread > Dec.ONE && cap > 0
    ensures SwapFee(Quote(cap * Dec.ONE, spread)) > cap * Dec.ONE
  {
    var x := Dec.Product(spread, cap);
    assert Dec.MulInt(spread, cap * Dec.ONE) == x * Dec.ONE;
    Dec.DivUnique(x * Dec.ONE, Dec.ONE, x);
    assert (spread - Dec.ONE) * cap > 0;
  }

  /** Under parameters that pass validation some swap panics if and only if the cap is zero or the maximal spread is
      more than one. */
  lemma {:induction false} SwapPanicsExactly(params: Params)
    requires Valid(params)
    ensures CanPanic(params) <==> params.dailyLunaDeltaCap == 0 || params.maxSwapSpread > Dec.ONE
  {
    if params.dailyLunaDeltaCap == 0 {
      ZeroCapPanics(params);
    } else if params.maxSwapSpread > Dec.ONE {
      WideSpreadPanics(params);
    } else {
      forall s: Mint.State, prices: Prices, trader: Addr, o: Offer | Mint.Sound(s) && Positive(prices) && o.amount > 0
        ensures Swap(s, params, prices, trader, o) != Err(Panicked)
      {
        NoPanic(s, params, prices, trader, o);
      }
    }
  }
}
