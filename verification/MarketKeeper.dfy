/** The keeper and the message handler of x/market. */
module MarketKeeper {
  import opened Wrappers
  import opened Coins
  import opened Epoch
  import opened Market
  import opened Sums
  import Dec
  import Ledger
  import Mint
  import OracleKeeper

  lemma {:induction false} ExchangeIsMintRest(s: Mint.State, trader: Addr, o: Offer, amount: int, fee: int,
          burnt: Result<Mint.State, Mint.Error>)
    requires fee <= amount && burnt == Mint.BurnCoin(s, trader, o.denom, o.amount)
    ensures Market.Exchange(s, trader, o, amount, fee) == MintRest(burnt, trader, o.ask, amount - fee, fee)
  {
  }

  /** What a swap that mints `minted` moves in the staking pool. */
  function LunaMoved(o: Offer, minted: int): int
  {
    Mint.LunaPart(o.ask, minted) - Mint.LunaPart(o.denom, o.amount)
  }

  class Keeper {
    const params: Params
    const mk: Mint.Keeper
    const ok: OracleKeeper.Keeper

    constructor (params: Params, mk: Mint.Keeper, ok: OracleKeeper.Keeper)
      requires ok.mk == mk
      ensures this.params == params && this.mk == mk && this.ok == ok
    {
      this.params, this.mk, this.ok := params, mk, ok;
    }

    /** `ComputeLunaDelta`: the reads fill the issuance table on the way. */
    method ComputeLunaDelta(change: int) returns (delta: int)
      modifies mk`issuance
      ensures var s, day := old(mk.Value()), Day(mk.height);
              && delta == LunaDelta(day, IssuanceOn(s, LUNA, day - 1), IssuanceOn(s, LUNA, day), change)
              && mk.Value() == AfterLunaDelta(s)
    {
      var curDay := mk.height / BLOCKS_PER_DAY;
      if curDay == 0 {
        return 0;
      }
      ghost var total := BookTotal(mk.balances, LUNA);
      Mint.ReadsAreInvisible(mk.issuance, total, LUNA, curDay - 1, total, LUNA, curDay);
      var prevIssuance := mk.GetIssuance(LUNA, curDay - 1);
      if prevIssuance != 0 {
        var curIssuance := mk.GetIssuance(LUNA, curDay);
        return Dec.QuoInt(Dec.FromInt(curIssuance + change - prevIssuance), prevIssuance);
      }
      return 0;
    }

    method GetSwapRate(d: Denom) returns (known: bool, rate: int)
      ensures known <==> HasRate(ok.prices, d)
      ensures known ==> rate == Rate(ok.prices, d)
    {
      if d == LUNA {
        return true, Dec.ONE;
      } else if d in ok.prices {
        return true, ok.prices[d];
      }
      return false, 0;
    }

    /** The quote, as the specification has it for the issuance of the day before and of the day. */
    ghost function Quoted(s: Mint.State, o: Offer, isInternal: bool): Result<Quote, Error>
      reads ok`prices
    {
      var day := Day(s.height);
      Market.GetSwapCoin(params, ok.prices, day, IssuanceOn(s, LUNA, day - 1), IssuanceOn(s, LUNA, day), o, isInternal)
    }

    /** `GetSwapCoin`; whatever the outcome, only snapshots are filled in. */
    method GetSwapCoin(o: Offer, isInternal: bool) returns (r: Result<Quote, Error>)
      modifies mk`issuance
      ensures r == Quoted(old(mk.Value()), o, isInternal)
      ensures r.Ok? ==> mk.Value() == if isInternal then old(mk.Value()) else AfterReads(old(mk.Value()), o)
    {
      var knownOffer, offerRate := GetSwapRate(o.denom);
      if !knownOffer {
        return Err(NoEffectivePrice(o.denom));
      }
      var knownAsk, askRate := GetSwapRate(o.ask);
      if !knownAsk {
        return Err(NoEffectivePrice(o.ask));
      }
      if offerRate == 0 {
        return Err(Panicked);
      }
      var retAmount := SwapAmount(o.amount, offerRate, askRate);
      if retAmount == 0 {
        return Err(InsufficientSwapCoins);
      }
      if isInternal || (o.denom != LUNA && o.ask != LUNA) {
        return if retAmount < 0 then Err(Panicked) else Ok(Quote(retAmount, 0));
      }
      var dailyDelta := ComputeLunaDelta(if o.denom == LUNA then -o.amount else retAmount);
      r := LunaQuote(params, retAmount, Dec.Abs(dailyDelta));
    }

    /** `handleMsgSwap`, with the changes of a swap that fails discarded. */
    method HandleMsgSwap(trader: Addr, o: Offer) returns (done: bool)
      requires ok.mk == mk
      modifies mk`balances, mk`issuance, mk`notBonded, ok`feePool, ok`charged
      ensures done <==> Market.Swap(old(mk.Value()), params, ok.prices, trader, o).Ok?
      ensures ok.Money() == Ledger.Exec(old(ok.Money()), Ledger.Swap(params, ok.prices, trader, o))
      ensures var q := Market.QuoteIn(old(mk.Value()), params, ok.prices, o);
              mk.notBonded == old(mk.notBonded) + if done then LunaMoved(o, q.value.amount - SwapFee(q.value)) else 0
    {
      var balances, issuance, notBonded, feePool := mk.balances, mk.issuance, mk.notBonded, ok.feePool;
      ghost var charged := ok.charged;
      done := TrySwap(trader, o);
      if !done {
        mk.balances, mk.issuance, mk.notBonded, ok.feePool := balances, issuance, notBonded, feePool;
        ok.charged := charged;
      }
    }

    method TrySwap(trader: Addr, o: Offer) returns (done: bool)
      requires ok.mk == mk
      modifies mk`balances, mk`issuance, mk`notBonded, ok`feePool, ok`charged
      ensures done <==> Market.Swap(old(mk.Value()), params, ok.prices, trader, o).Ok?
      ensures done ==> ok.Money() == Ledger.Exec(old(ok.Money()), Ledger.Swap(params, ok.prices, trader, o))
      ensures done ==>
                var q := Market.QuoteIn(old(mk.Value()), params, ok.prices, o).value;
                mk.notBonded == old(mk.notBonded) + LunaMoved(o, q.amount - SwapFee(q))
    {
      if o.denom == o.ask {
        return false;
      }
      var quote := GetSwapCoin(o, false);
      if quote.Err? {
        return false;
      }
      var fee := ChargeSpread(o.ask, quote.value);
      done := Exchange(trader, o, quote.value.amount, fee);
    }

    /** The spread, if there is any, goes to the fee pool. */
    method ChargeSpread(ask: Denom, quote: Quote) returns (fee: int)
      modifies ok`feePool, ok`charged
      ensures fee == SwapFee(quote)
      ensures ok.feePool == Ledger.AddFee(old(ok.feePool), ask, fee)
              && ok.charged == Ledger.AddFee(old(ok.charged), ask, fee)
    {
      if quote.spread > 0 {
        var swapFeeAmt := Dec.TruncateInt(Dec.MulInt(quote.spread, quote.amount));
        if swapFeeAmt > 0 {
          ok.AddSwapFeePool(ask, swapFeeAmt);
          return swapFeeAmt;
        }
      }
      return 0;
    }

    /** Burns the offered coins and mints what is left of the asked ones. */
    method Exchange(trader: Addr, o: Offer, amount: int, fee: int) returns (done: bool)
      modifies mk`balances, mk`issuance, mk`notBonded
      ensures done <==> Market.Exchange(old(mk.Value()), trader, o, amount, fee).Ok?
      ensures done ==> Market.Exchange(old(mk.Value()), trader, o, amount, fee) == Ok(Swapped(mk.Value(), fee))
      ensures done ==> mk.notBonded == old(mk.notBonded) + LunaMoved(o, amount - fee)
    {
      if amount < fee {
        return false;
      }
      ghost var s, burnt := mk.Value(), Mint.BurnCoin(mk.Value(), trader, o.denom, o.amount);
      ExchangeIsMintRest(s, trader, o, amount, fee, burnt);
      done := BurnThenMint(trader, o, amount - fee, fee, burnt);
    }

    method BurnThenMint(trader: Addr, o: Offer, rest: int, ghost fee: int, ghost burnt: Result<Mint.State, Mint.Error>)
      returns (done: bool)
      requires burnt == Mint.BurnCoin(mk.Value(), trader, o.denom, o.amount)
      modifies mk`balances, mk`issuance, mk`notBonded
      ensures done <==> MintRest(burnt, trader, o.ask, rest, fee).Ok?
      ensures done ==> MintRest(burnt, trader, o.ask, rest, fee) == Ok(Swapped(mk.Value(), fee))
      ensures done ==> mk.notBonded == old(mk.notBonded) + LunaMoved(o, rest)
    {
      done := mk.Burn(trader, o.denom, o.amount);
      if done {
        done := mk.Mint(trader, o.ask, rest);
      }
    }
  }
}
