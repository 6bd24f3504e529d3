/** Swaps of x/market: oracle-rate quotes, the spread, and the daily cap on Luna supply changes. */
module Market {
  import opened Wrappers
  import opened Sums
  import opened Coins
  import opened Epoch
  import Dec
  import Mint

  datatype Params = Params(dailyLunaDeltaCap: int, minSwapSpread: int, maxSwapSpread: int)

  datatype Error =
    | RecursiveSwap
    | NoEffectivePrice(denom: Denom)
    | InsufficientSwapCoins
    | ExceedsDailySwapLimit
    | Panicked
    | MintFailed(cause: Mint.Error)

  /** Luna prices by denomination; Luna itself is worth one Luna. */
  type Prices = map<Denom, int>

  predicate HasRate(prices: Prices, d: Denom) { d == LUNA || d in prices }

  function Rate(prices: Prices, d: Denom): int
    requires HasRate(prices, d)
  {
    if d == LUNA then Dec.ONE else prices[d]
  }

  /** Relative change of the Luna supply against yesterday if `change` were added to it. */
  function LunaDelta(day: nat, yesterday: int, today: int, change: int): int
  {
    if day == 0 || yesterday == 0 then 0
    else Dec.QuoInt(Dec.FromInt(today + change - yesterday), yesterday)
  }

  /** The amount asked for at the oracle rates, before any spread. */
  function SwapAmount(amount: int, offerRate: int, askRate: int): int
    requires offerRate != 0
  {
    Dec.TruncateInt(Dec.Quo(Dec.Mul(Dec.FromInt(amount), askRate), offerRate))
  }

  datatype Quote = Quote(amount: int, spread: int)

  datatype Offer = Offer(denom: Denom, amount: int, ask: Denom)

  predicate InvolvesLuna(o: Offer) { o.denom == LUNA || o.ask == LUNA }

  /** The quote of a swap that would bring the day's change of the Luna supply to `delta`: beyond the cap there is none,
      and up to it the spread grows from its minimum to its maximum. */
  function LunaQuote(params: Params, amount: int, delta: int): Result<Quote, Error>
  {
    if delta > params.dailyLunaDeltaCap then Err(ExceedsDailySwapLimit)
    else if params.dailyLunaDeltaCap == 0 || amount < 0 then Err(Panicked)
    else
      var share := Dec.Mul(Dec.Quo(delta, params.dailyLunaDeltaCap), params.maxSwapSpread - params.minSwapSpread);
      Ok(Quote(amount, params.minSwapSpread + share))
  }

  /** `GetSwapCoin`. Division by a zero rate or cap, and a negative coin, panic. */
  function GetSwapCoin(params: Params, prices: Prices, day: nat, yesterday: int, today: int, o: Offer,
          isInternal: bool): Result<Quote, Error>
  {
    if !HasRate(prices, o.denom) then Err(NoEffectivePrice(o.denom))
    else if !HasRate(prices, o.ask) then Err(NoEffectivePrice(o.ask))
    else if Rate(prices, o.denom) == 0 then Err(Panicked)
    else
      var amount := SwapAmount(o.amount, Rate(prices, o.denom), Rate(prices, o.ask));
      if amount == 0 then Err(InsufficientSwapCoins)
      else if isInternal || !InvolvesLuna(o) then (if amount < 0 then Err(Panicked) else Ok(Quote(amount, 0)))
      else
        LunaQuote(params, amount,
            Dec.Abs(LunaDelta(day, yesterday, today, if o.denom == LUNA then -o.amount else amount)))
  }

  /** `GetSwapDecCoin`: a decimal amount at the oracle rates, with neither cap nor spread. */
  function GetSwapDecCoin(prices: Prices, offer: Denom, amount: int, ask: Denom): Result<int, Error>
  {
    if !HasRate(prices, offer) then Err(NoEffectivePrice(offer))
    else if !HasRate(prices, ask) then Err(NoEffectivePrice(ask))
    else if Rate(prices, offer) == 0 then Err(Panicked)
    else
      var paid := Dec.Quo(Dec.Mul(amount, Rate(prices, ask)), Rate(prices, offer));
      if paid <= 0 then Err(InsufficientSwapCoins) else Ok(paid)
  }

  function SwapFee(q: Quote): int
  {
    var fee := Dec.TruncateInt(Dec.MulInt(q.spread, q.amount));
    if q.spread > 0 && fee > 0 then fee else 0
  }

  // ---------------------------------------------------------------------------
  // Executing a swap

  ghost function IssuanceOn(s: Mint.State, d: Denom, day: int): int
  {
    Mint.Lookup(s.issuance, BookTotal(s.balances, d), d, day)
  }

  ghost function ReadIssuance(s: Mint.State, d: Denom, day: int): Mint.State
  {
    s.(issuance := Mint.Fill(s.issuance, BookTotal(s.balances, d), d, day))
  }

  /** The table once `ComputeLunaDelta` has read yesterday and, unless that is zero, today. */
  ghost function AfterLunaDelta(s: Mint.State): Mint.State
  {
    var day := Day(s.height);
    if day == 0 then s
    else if IssuanceOn(s, LUNA, day - 1) == 0 then ReadIssuance(s, LUNA, day - 1)
    else ReadIssuance(ReadIssuance(s, LUNA, day - 1), LUNA, day)
  }

  ghost function QuoteIn(s: Mint.State, params: Params, prices: Prices, o: Offer): Result<Quote, Error>
  {
    var day := Day(s.height);
    GetSwapCoin(params, prices, day, IssuanceOn(s, LUNA, day - 1), IssuanceOn(s, LUNA, day), o, false)
  }

  datatype Swapped = Swapped(mint: Mint.State, fee: int)

  ghost function AfterReads(s: Mint.State, o: Offer): Mint.State
  {
    if InvolvesLuna(o) then AfterLunaDelta(s) else s
  }

  /** Mints what is left of the asked amount after the fee, once the offer is burnt. */
  ghost function MintRest(burnt: Result<Mint.State, Mint.Error>, trader: Addr, ask: Denom, rest: int,
          fee: int): Result<Swapped, Error>
  {
    match burnt
    case Err(e) => Err(MintFailed(e))
    case Ok(s) =>
      match Mint.MintCoin(s, trader, ask, rest)
      case Err(e) => Err(MintFailed(e))
      case Ok(minted) => Ok(Swapped(minted, fee))
  }

  /** Burns the offer and mints what is left of the asked amount after the fee. */
  ghost function Exchange(s: Mint.State, trader: Addr, o: Offer, amount: int, fee: int): Result<Swapped, Error>
  {
    if amount < fee then Err(Panicked)
    else MintRest(Mint.BurnCoin(s, trader, o.denom, o.amount), trader, o.ask, amount - fee, fee)
  }

  /** Exchanges what was quoted. */
  ghost function ExchangeQuoted(quote: Result<Quote, Error>, s: Mint.State, trader: Addr,
          o: Offer): Result<Swapped, Error>
  {
    match quote
    case Err(e) => Err(e)
    case Ok(q) => Exchange(s, trader, o, q.amount, SwapFee(q))
  }

  /** `handleMsgSwap`: quote, fee to the pool, offer burnt, the rest of the asked coins minted. */
  ghost function Swap(s: Mint.State, params: Params, prices: Prices, trader: Addr, o: Offer): Result<Swapped, Error>
  {
    if o.denom == o.ask then Err(RecursiveSwap)
    else ExchangeQuoted(QuoteIn(s, params, prices, o), AfterReads(s, o), trader, o)
  }

  /** What an accepted swap was made of. */
  lemma {:induction false} SwapParts(s: Mint.State, params: Params, prices: Prices, trader: Addr, o: Offer)
    returns (amount: int, fee: int)
    requires Swap(s, params, prices, trader, o).Ok?
    ensures QuoteIn(s, params, prices, o).Ok? && amount == QuoteIn(s, params, prices, o).value.amount
    ensures fee >= 0
    ensures Swap(s, params, prices, trader, o) == Exchange(AfterReads(s, o), trader, o, amount, fee)
  {
    var q := QuoteIn(s, params, prices, o).value;
    amount, fee := q.amount, SwapFee(q);
  }

  // ---------------------------------------------------------------------------
  // The spread

  lemma {:induction false} MulMonotone(a: int, b: int, r: nat)
    requires a <= b
    ensures Dec.Mul(a, r) <= Dec.Mul(b, r)
  {
    assert a * r <= b * r;
    Dec.ChopMonotone(a * r, b * r);
  }

  lemma {:induction false} QuoMonotone(a: int, b: int, c: nat)
    requires a <= b && c > 0
    ensures Dec.Quo(a, c) <= Dec.Quo(b, c)
  {
    Dec.TruncDivMonotone(a * Dec.ONE * Dec.ONE, b * Dec.ONE * Dec.ONE, c);
    Dec.ChopMonotone(Dec.TruncDiv(a * Dec.ONE * Dec.ONE, c), Dec.TruncDiv(b * Dec.ONE * Dec.ONE, c));
  }

  lemma {:induction false} QuoItself(c: nat)
    requires c > 0
    ensures Dec.Quo(0, c) == 0 && Dec.Quo(c, c) == Dec.ONE
  {
    Dec.DivUnique(0, c, 0);
    Dec.DivUnique(c * Dec.ONE * Dec.ONE, c, Dec.ONE * Dec.ONE);
    Dec.ChopExact(0);
    Dec.ChopExact(Dec.ONE);
  }

  /** Up to the cap every change is quoted; the spread is the minimum for no change, the maximum at the cap, and never
      falls as the change grows. */
  lemma {:induction false} SpreadGrows(params: Params, amount: nat, delta: nat, delta': nat)
    requires delta <= delta' <= params.dailyLunaDeltaCap && 0 < params.dailyLunaDeltaCap
    requires params.minSwapSpread <= params.maxSwapSpread
    ensures LunaQuote(params, amount, delta).Ok? && LunaQuote(params, amount, delta').Ok?
    ensures var spread, spread' := LunaQuote(params, amount, delta).value.spread,
            LunaQuote(params, amount, delta').value.spread;
            && params.minSwapSpread <= spread <= spread' <= params.maxSwapSpread
            && (delta == 0 ==> spread == params.minSwapSpread)
            && (delta' == params.dailyLunaDeltaCap ==> spread' == params.maxSwapSpread)
  {
    var cap, range := params.dailyLunaDeltaCap, params.maxSwapSpread - params.minSwapSpread;
    QuoItself(cap);
    QuoMonotone(0, delta, cap);
    QuoMonotone(delta, delta', cap);
    QuoMonotone(delta', cap, cap);
    MulMonotone(0, Dec.Quo(delta, cap), range);
    MulMonotone(Dec.Quo(delta, cap), Dec.Quo(delta', cap), range);
    MulMonotone(Dec.Quo(delta', cap), Dec.ONE, range);
    Dec.MulFromInt(0, range);
    Dec.MulFromInt(1, range);
  }

  lemma {:induction false} FeeOf(spread: int, amount: nat)
    ensures spread <= Dec.ONE ==> SwapFee(Quote(amount, spread)) <= amount
    ensures spread > Dec.ONE ==> SwapFee(Quote(Dec.ONE, spread)) == spread
  {
    if 0 < spread <= Dec.ONE {
      assert spread * amount <= Dec.ONE * amount;
      Dec.DivMonotone(spread * amount, Dec.ONE * amount, Dec.ONE);
      Dec.DivUnique(Dec.ONE * amount, Dec.ONE, amount);
    } else if spread > Dec.ONE {
      Dec.DivUnique(spread * Dec.ONE, Dec.ONE, spread);
    }
  }

  /** So a quoted fee is always covered by the asked amount exactly when the maximal spread is at most one. The
      parameters do not demand it, and a fee that is not covered panics. */
  lemma {:induction false} FeeCovered(params: Params)
    requires 0 < params.dailyLunaDeltaCap && params.minSwapSpread <= params.maxSwapSpread
    ensures (forall delta: nat, amount: nat :: delta <= params.dailyLunaDeltaCap ==>
               LunaQuote(params, amount, delta).Ok? && SwapFee(LunaQuote(params, amount, delta).value) <= amount)
       <==> params.maxSwapSpread <= Dec.ONE
  {
    var cap := params.dailyLunaDeltaCap;
    if params.maxSwapSpread <= Dec.ONE {
      forall delta: nat, amount: nat | delta <= cap
        ensures LunaQuote(params, amount, delta).Ok? && SwapFee(LunaQuote(params, amount, delta).value) <= amount
      {
        SpreadGrows(params, amount, delta, delta);
        FeeOf(LunaQuote(params, amount, delta).value.spread, amount);
      }
    } else {
      SpreadGrows(params, Dec.ONE, cap, cap);
      FeeOf(params.maxSwapSpread, Dec.ONE);
      assert SwapFee(LunaQuote(params, Dec.ONE, cap).value) > Dec.ONE;
    }
  }
}
