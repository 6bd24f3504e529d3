/** A run of the chain on which a settlement takes the Luna supply beyond the daily cap. */
module CapBreach {
  import opened Wrappers
  import opened Sums
  import opened Coins
  import opened Epoch
  import opened Ledger
  import opened DailyCap
  import Dec
  import Mint
  import Market
  import RoundTrip

  const TRADER: Addr := Addr("trader")
  const HOLDER: Addr := Addr("holder")
  const VALIDATOR: Addr := Addr("validator")

  /** A cap of 0.5% and a spread of one half, whatever the change. */
  const CAP: int := 5_000_000_000_000_000
  const HALF: int := 500_000_000_000_000_000
  const PARAMS: Market.Params := Market.Params(CAP, HALF, HALF)

  /** One SDR is worth one Luna. */
  const PRICES: Market.Prices := map[SDR := Dec.ONE]

  /** At genesis one account holds 1000 Luna and another ten SDR. */
  const BALANCES: Book := map[HOLDER := map[LUNA := 1000], TRADER := map[SDR := 10]]
  const GENESIS: World := World(Mint.State(0, BALANCES, map[]), map[], map[], map[], map[], map[], map[])

  // ---------------------------------------------------------------------------
  // A quiet first day

  predicate Quiet(events: seq<Event>) { forall i :: 0 <= i < |events| ==> events[i].NextBlock? }

  lemma {:induction false} QuietRun(w: World, events: seq<Event>)
    requires Quiet(events)
    ensures Run(w, events) == w.(mint := w.mint.(height := w.mint.height + |events|))
    decreases |events|
  {
    if events != [] {
      QuietRun(w, events[..|events| - 1]);
    }
  }

  lemma {:induction false} GenesisTotals()
    ensures BookTotal(BALANCES, LUNA) == 1000 && Get(Row(BALANCES, TRADER), SDR) == 10
  {
    var luna := Column(BALANCES, LUNA);
    assert luna == map[HOLDER := 1000, TRADER := 0];
    TotalRemove(luna, HOLDER);
    TotalRemove(luna - {HOLDER}, TRADER);
    assert luna - {HOLDER} - {TRADER} == map[];
  }

  /** The second day as it has come so far, from its first block on. */
  ghost predicate Daytime(w: World, today: int, purse: int, pool: Coins)
  {
    && Inv(w) && Day(w.mint.height) == 1 && Yesterday(w) == 1000 && Today(w) == today
    && Get(Row(w.mint.balances, TRADER), SDR) == purse && w.feePool == pool
  }

  lemma {:induction false} Morning(idle: seq<Event>)
    requires Quiet(idle) && |idle| == BLOCKS_PER_DAY
    ensures Genesis(GENESIS) && Daytime(Run(GENESIS, idle), 1000, 10, map[])
  {
    GenesisTotals();
    QuietRun(GENESIS, idle);
    SupplyIsHeld(GENESIS, idle, LUNA);
    var s := Run(GENESIS, idle).mint;
    Mint.UntrackedLookup(s, LUNA, 0);
    Mint.UntrackedLookup(s, LUNA, 1);
  }

  // ---------------------------------------------------------------------------
  // Buying Luna at a rate of one

  function Buy(n: int): Event { Swap(PARAMS, PRICES, TRADER, Market.Offer(SDR, n, LUNA)) }

  /** The quote for `n` Luna, as long as the supply with them is within the cap. */
  lemma {:induction false} BuyQuote(w: World, n: nat)
    requires Day(w.mint.height) == 1 && Yesterday(w) == 1000 && 0 < n && 1000 <= Today(w) && Today(w) + n <= 1005
    ensures Market.QuoteIn(w.mint, PARAMS, PRICES, Market.Offer(SDR, n, LUNA)) == Ok(Market.Quote(n, HALF))
  {
    RoundTrip.UnitSwap(n);
    var delta := Today(w) + n - 1000;
    assert Market.LunaDelta(1, 1000, Today(w), n) == delta * (Dec.ONE / 1000);
    assert Dec.Mul(Dec.Quo(delta * (Dec.ONE / 1000), CAP), 0) == 0 by {
      Dec.MulFromInt(0, 0);
    }
  }

  /** The supplies the cap allows are those up to 1005. */
  lemma {:induction false} CapIsFive(t: int)
    requires 1000 <= t
    ensures t in Allowed(1000, CAP) <==> t <= 1005
  {
    assert Dec.QuoInt(Dec.FromInt(t - 1000), 1000) == (t - 1000) * (Dec.ONE / 1000);
  }

  lemma {:induction false} BuyFee(n: nat)
    ensures Market.SwapFee(Market.Quote(n, HALF)) == n / 2
  {
    assert Dec.TruncDiv(HALF * n, Dec.ONE) == n / 2;
  }

  /** A swap of `n` SDR is accepted. */
  lemma {:induction false} BuyAccepted(before: seq<Event>, today: int, purse: int, pool: Coins, n: nat)
    requires Genesis(GENESIS) && Daytime(Run(GENESIS, before), today, purse, pool)
    requires 0 < n <= purse && 1000 <= today <= 1005 - n
    ensures var s := Run(GENESIS, before).mint;
            && Market.QuoteIn(s, PARAMS, PRICES, Market.Offer(SDR, n, LUNA)) == Ok(Market.Quote(n, HALF))
            && Market.Swap(s, PARAMS, PRICES, TRADER, Market.Offer(SDR, n, LUNA)).Ok?
  {
    BuyQuote(Run(GENESIS, before), n);
    BuyFee(n);
    SwapAcceptedExactly(GENESIS, before, Buy(n));
  }

  lemma {:induction false} BuySupply(w: World, n: nat)
    requires Inv(w) && Day(w.mint.height) == 1 && Yesterday(w) == 1000 && 1000 <= Today(w) <= 1005
    requires Market.QuoteIn(w.mint, PARAMS, PRICES, Market.Offer(SDR, n, LUNA)) == Ok(Market.Quote(n, HALF))
    requires Market.Swap(w.mint, PARAMS, PRICES, TRADER, Market.Offer(SDR, n, LUNA)).Ok?
    ensures var r := Market.Swap(w.mint, PARAMS, PRICES, TRADER, Market.Offer(SDR, n, LUNA)).value;
            && r.fee == n / 2 && Mint.Current(r.mint, LUNA) == Today(w) + n - n / 2
            && Get(Row(r.mint.balances, TRADER), SDR) == Get(Row(w.mint.balances, TRADER), SDR) - n
  {
    var o := Market.Offer(SDR, n, LUNA);
    BuyFee(n);
    var amount := SwapEvolves(w.mint, PARAMS, PRICES, TRADER, o);
    Mint.EvolvesGap(w.mint, Market.Swap(w.mint, PARAMS, PRICES, TRADER, o).value.mint, LUNA);
    ReadsEvolve(w.mint, o);
    ExchangeTakes(Market.AfterReads(w.mint, o), TRADER, o, n, n / 2);
  }

  lemma {:induction false} BuySameDay(w: World, n: nat)
    requires Inv(w) && Day(w.mint.height) == 1 && Yesterday(w) == 1000 && 1000 <= Today(w) <= 1005
    ensures Inv(Exec(w, Buy(n))) && SameDay(w, Exec(w, Buy(n)))
  {
    CapIsFive(Today(w));
    AllowedConvex(1000, CAP);
    SwapStaysNear(w, Buy(n), 0, Allowed(1000, CAP));
    ExecConserves(w, Buy(n));
  }

  /** Half of it, rounded down, is withheld as a fee. */
  lemma {:induction false} BuyMoves(w: World, today: int, purse: int, pool: Coins, n: nat)
    requires Daytime(w, today, purse, pool) && 1000 <= today <= 1005
    requires Market.QuoteIn(w.mint, PARAMS, PRICES, Market.Offer(SDR, n, LUNA)) == Ok(Market.Quote(n, HALF))
    requires Market.Swap(w.mint, PARAMS, PRICES, TRADER, Market.Offer(SDR, n, LUNA)).Ok?
    ensures Daytime(Exec(w, Buy(n)), today + n - n / 2, purse - n, AddFee(pool, LUNA, n / 2))
  {
    BuySupply(w, n);
    BuySameDay(w, n);
  }

  // ---------------------------------------------------------------------------
  // The second day

  const CLAIMS: map<Addr, int> := map[VALIDATOR := 1]

  /** Two purchases, a tally, and the settlement of the fees. */
  const SECOND_DAY: seq<Event> := [Buy(5), Buy(1), Tally(CLAIMS), Settle({VALIDATOR}, [LUNA])]

  lemma {:induction false} RunOneMore(w: World, events: seq<Event>, e: Event)
    ensures Run(w, events + [e]) == Exec(Run(w, events), e)
  {
    assert (events + [e])[..|events|] == events;
  }

  lemma {:induction false} BuyStep(before: seq<Event>, today: int, purse: int, pool: Coins, n: nat)
    requires Genesis(GENESIS) && Daytime(Run(GENESIS, before), today, purse, pool)
    requires 0 < n <= purse && 1000 <= today <= 1005 - n
    ensures Daytime(Run(GENESIS, before + [Buy(n)]), today + n - n / 2, purse - n, AddFee(pool, LUNA, n / 2))
  {
    BuyAccepted(before, today, purse, pool, n);
    BuyMoves(Run(GENESIS, before), today, purse, pool, n);
    RunOneMore(GENESIS, before, Buy(n));
  }

  lemma {:induction false} FirstFee(fee: int)
    requires fee != 0
    ensures AddFee(map[], LUNA, fee) == map[LUNA := fee]
  {
  }

  /** After two purchases the first fee is withheld, if the second is too small for one. */
  lemma {:induction false} TwoBuys(idle: seq<Event>, today: int, purse: int, n: nat, m: nat)
    requires Genesis(GENESIS) && Daytime(Run(GENESIS, idle), today, purse, map[])
    requires 2 <= n && 0 < m < 2 && n + m <= purse && 1000 <= today && today + n <= 1005
             && today + n - n / 2 + m <= 1005
    ensures Daytime(Run(GENESIS, idle + [Buy(n)] + [Buy(m)]), today + n - n / 2 + m, purse - n - m, map[LUNA := n / 2])
  {
    BuyStep(idle, today, purse, map[], n);
    FirstFee(n / 2);
    BuyStep(idle + [Buy(n)], today + n - n / 2, purse - n, map[LUNA := n / 2], m);
  }

  /** The settlement of a claim puts the two withheld Luna back. */
  lemma {:induction false} Settling(w: World, today: int, purse: int)
    requires Daytime(w, today, purse, map[LUNA := 2]) && Total(w.claims) != 0
    ensures Today(Exec(w, Settle({VALIDATOR}, [LUNA]))) == today + 2
  {
    assert Lists([LUNA], w.feePool.Keys);
    SettleMovesLuna(w, {VALIDATOR}, [LUNA]);
  }

  lemma {:induction false} Tallying(w: World, today: int, purse: int, pool: Coins)
    requires Daytime(w, today, purse, pool)
    ensures Daytime(Exec(w, Tally(CLAIMS)), today, purse, pool) && Total(Exec(w, Tally(CLAIMS)).claims) == 1
  {
    TotalRemove(CLAIMS, VALIDATOR);
    assert CLAIMS - {VALIDATOR} == map[];
    ExecConserves(w, Tally(CLAIMS));
  }

  lemma {:induction false} SecondDayRun(w: World)
    ensures var bought := Run(w, [Buy(5), Buy(1)]);
            Run(w, SECOND_DAY) == Exec(Exec(bought, Tally(CLAIMS)), Settle({VALIDATOR}, [LUNA]))
  {
    var buys := [Buy(5), Buy(1)];
    assert SECOND_DAY == buys + [Tally(CLAIMS)] + [Settle({VALIDATOR}, [LUNA])];
    RunOneMore(w, buys, Tally(CLAIMS));
    RunOneMore(w, buys + [Tally(CLAIMS)], Settle({VALIDATOR}, [LUNA]));
  }

  lemma {:induction false} SecondDayIsDay(w: World)
    ensures DayRun(w, SECOND_DAY, CAP)
  {
    var d := SECOND_DAY;
    assert d[..3][..2] == d[..2] && d[..2][..1] == d[..1] && d[..1][..0] == [];
    assert DayRun(w, d[..1][..0], CAP);
    assert DayRun(w, d[..1], CAP) && DayRun(w, d[..2], CAP) && DayRun(w, d[..3], CAP);
  }

  lemma {:induction false} RunAppend(w: World, a: seq<Event>, b: seq<Event>)
    ensures Run(w, a + b) == Run(Run(w, a), b)
    decreases |b|
  {
    if b == [] {
      assert a + b == a;
    } else {
      assert (a + b)[..|a + b| - 1] == a + b[..|b| - 1];
      RunAppend(w, a, b[..|b| - 1]);
    }
  }

  lemma {:induction false} Evening(w: World, today: int, purse: int)
    requires Daytime(Run(w, [Buy(5), Buy(1)]), today, purse, map[LUNA := 2])
    ensures Today(Run(w, SECOND_DAY)) == today + 2
  {
    var bought := Run(w, [Buy(5), Buy(1)]);
    Tallying(bought, today, purse, map[LUNA := 2]);
    Settling(Exec(bought, Tally(CLAIMS)), today, purse);
    SecondDayRun(w);
  }

  lemma {:induction false} Purchases(idle: seq<Event>)
    requires Genesis(GENESIS) && Daytime(Run(GENESIS, idle), 1000, 10, map[])
    ensures Daytime(Run(Run(GENESIS, idle), [Buy(5), Buy(1)]), 1004, 4, map[LUNA := 2])
  {
    TwoBuys(idle, 1000, 10, 5, 1);
    assert idle + [Buy(5)] + [Buy(1)] == idle + [Buy(5), Buy(1)];
    RunAppend(GENESIS, idle, [Buy(5), Buy(1)]);
  }

  /** From a genesis with nothing but balances, a day of accepted swaps that starts within the cap ends beyond it once
      the fees are settled: 1000 Luna yesterday, a cap of 0.5%, and 1006 Luna tonight. */
  lemma {:induction false} SettlementCanExceedCap(idle: seq<Event>)
    requires Quiet(idle) && |idle| == BLOCKS_PER_DAY
    ensures Genesis(GENESIS)
    ensures var morning := Run(GENESIS, idle);
            && Inv(morning) && Day(morning.mint.height) == 1 && Yesterday(morning) == 1000
            && Today(morning) in Allowed(1000, CAP) && DayRun(morning, SECOND_DAY, CAP)
            && Today(Run(morning, SECOND_DAY)) !in Allowed(1000, CAP)
  {
    Morning(idle);
    Purchases(idle);
    Evening(Run(GENESIS, idle), 1004, 4);
    SecondDayIsDay(Run(GENESIS, idle));
    CapIsFive(1000);
    CapIsFive(1006);
  }
}
