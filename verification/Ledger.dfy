/**
 Supply conservation across x/market, x/mint and x/oracle: runs of swaps, mints, burns, transfers and oracle
 settlements.
 */
module Ledger {
  import opened Wrappers
  import opened Sums
  import opened Coins
  import opened Epoch
  import Dec
  import Mint
  import Market
  import OracleSettlement

  /** The chain as far as money goes. `charged` and `settled` record all fees ever charged and paid out. */
  datatype World = World(
    mint: Mint.State,
    feePool: Coins,
    claims: map<Addr, int>,
    rewards: Book,
    collected: Coins,
    charged: Coins,
    settled: Coins)

  datatype Event =
    | Swap(params: Market.Params, prices: Market.Prices, trader: Addr, offer: Market.Offer)
    | MintTo(recipient: Addr, denom: Denom, amount: int)
    | BurnFrom(payer: Addr, denom: Denom, amount: int)
    | Send(sender: Addr, recipient: Addr, denom: Denom, amount: int)
    | Tally(claims: map<Addr, int>)
    | Settle(vals: set<Addr>, order: seq<Denom>)
    | NextBlock

  /** `order` lists the denominations, each once. */
  ghost predicate Lists(order: seq<Denom>, denoms: set<Denom>)
  {
    && (forall d :: d in order <==> d in denoms)
    && (forall i, j :: 0 <= i < j < |order| ==> order[i] != order[j])
  }

  /** Issuance grows by each fee coin in turn. */
  ghost function ChangeInOrder(s: Mint.State, pool: Coins, order: seq<Denom>): Mint.State
  {
    if order == [] then s
    else
      var before := ChangeInOrder(s, pool, order[..|order| - 1]);
      var d := order[|order| - 1];
      match Mint.IssuanceChanged(before, d, Get(pool, d))
      case Ok(after) => after
      case Err(_) => before
  }

  ghost function Settled(w: World, vals: set<Addr>, order: seq<Denom>): World
  {
    if Total(w.claims) == 0 then w
    else if w.feePool == map[] then w.(claims := map[])
    else
      var paid := OracleSettlement.Settle(w.rewards, w.collected, w.claims, vals, w.feePool);
      w.(mint := ChangeInOrder(w.mint, w.feePool, order),
         feePool := map[],
         claims := map[],
         rewards := paid.rewards,
         collected := paid.collected,
         settled := AddCoins(w.settled, w.feePool))
  }

  function Transfer(b: Book, sender: Addr, recipient: Addr, d: Denom, x: int): Book
  {
    Credit(Credit(b, sender, map[d := -x]), recipient, map[d := x])
  }

  function AddFee(pool: Coins, d: Denom, fee: int): Coins
  {
    if fee == 0 then pool else Plus(pool, d, fee)
  }

  /** A message that fails, or an event that cannot happen, leaves the world as it was. */
  ghost function Exec(w: World, e: Event): World
  {
    match e
    case Swap(params, prices, trader, o) =>
      (match Market.Swap(w.mint, params, prices, trader, o)
       case Err(_) => w
       case Ok(r) => w.(mint := r.mint, feePool := AddFee(w.feePool, o.ask, r.fee),
           charged := AddFee(w.charged, o.ask, r.fee)))
    case MintTo(a, d, x) => (match Mint.MintCoin(w.mint, a, d, x) case Err(_) => w case Ok(s) => w.(mint := s))
    case BurnFrom(a, d, x) => (match Mint.BurnCoin(w.mint, a, d, x) case Err(_) => w case Ok(s) => w.(mint := s))
    case Send(a, b, d, x) =>
      if x <= 0 || Get(Row(w.mint.balances, a), d) < x then w
      else w.(mint := w.mint.(balances := Transfer(w.mint.balances, a, b, d, x)))
    case Tally(claims) => if NonNegative(claims) then w.(claims := claims) else w
    case Settle(vals, order) => if Lists(order, w.feePool.Keys) then Settled(w, vals, order) else w
    case NextBlock => w.(mint := w.mint.(height := w.mint.height + 1))
  }

  ghost function Run(w: World, events: seq<Event>): World
  {
    if events == [] then w else Exec(Run(w, events[..|events| - 1]), events[|events| - 1])
  }

  // ---------------------------------------------------------------------------
  // Invariant

  ghost predicate Inv(w: World)
  {
    && Mint.Sound(w.mint)
    && NonNegative(w.feePool) && NonNegative(w.claims)
    && (forall d :: d in w.feePool ==> Mint.IsTracked(w.mint, d))
    && (forall d :: Get(w.charged, d) == Get(w.feePool, d) + Get(w.settled, d))
  }

  /** Everything a denomination is held in: accounts, validator rewards and collected fees. */
  ghost function Holdings(w: World, d: Denom): int
  {
    BookTotal(w.mint.balances, d) + BookTotal(w.rewards, d) + Get(w.collected, d)
  }

  /** Recorded issuance that is held nowhere. A denomination that nothing has touched yet counts as its balances. */
  ghost function Unaccounted(w: World, d: Denom): int
  {
    Mint.Current(w.mint, d) - Holdings(w, d)
  }

  ghost predicate Conserves(w: World, w': World)
  {
    Inv(w') && forall d :: Unaccounted(w', d) == Unaccounted(w, d)
  }

  lemma {:induction false} EvolutionConserves(w: World, w': World)
    requires Inv(w) && Mint.Evolves(w.mint, w'.mint)
    requires w'.rewards == w.rewards && w'.collected == w.collected && w'.claims == w.claims && w'.settled == w.settled
    requires NonNegative(w'.feePool) && forall d :: d in w'.feePool ==> Mint.IsTracked(w'.mint, d)
    requires forall d :: Get(w'.charged, d) - Get(w'.feePool, d) == Get(w.charged, d) - Get(w.feePool, d)
    ensures Conserves(w, w')
  {
    forall d
      ensures Unaccounted(w', d) == Unaccounted(w, d)
    {
      Mint.EvolvesGap(w.mint, w'.mint, d);
    }
  }

  lemma {:induction false} MintEvolves(s: Mint.State, a: Addr, d: Denom, x: int)
    requires Mint.Sound(s) && Mint.MintCoin(s, a, d, x).Ok?
    ensures var s' := Mint.MintCoin(s, a, d, x).value;
            && Mint.Evolves(s, s') && Mint.IsTracked(s', d)
            && forall e :: BookTotal(s'.balances, e) == BookTotal(s.balances, e) + (if e == d then x else 0)
  {
    AccountAtMostTotal(s.balances, a, d);
    Mint.CreditAndChangeEvolves(s, a, d, x);
  }

  lemma {:induction false} BurnEvolves(s: Mint.State, a: Addr, d: Denom, x: int)
    requires Mint.Sound(s) && Mint.BurnCoin(s, a, d, x).Ok?
    ensures var s' := Mint.BurnCoin(s, a, d, x).value;
            && Mint.Evolves(s, s') && Mint.IsTracked(s', d)
            && forall e :: BookTotal(s'.balances, e) == BookTotal(s.balances, e) - (if e == d then x else 0)
  {
    Mint.CreditAndChangeEvolves(s, a, d, -x);
  }

  lemma {:induction false} EvolvesToItself(s: Mint.State)
    requires Mint.Sound(s)
    ensures Mint.Evolves(s, s)
  {
  }

  lemma {:induction false} TwoReadsEvolve(s: Mint.State, d: Denom, day: nat, day': nat)
    requires Mint.Sound(s) && day <= Day(s.height) && day' <= Day(s.height)
    ensures var twice := Market.ReadIssuance(Market.ReadIssuance(s, d, day), d, day');
            Mint.Evolves(s, twice) && twice.balances == s.balances && Mint.IsTracked(twice, d)
  {
    var once := Market.ReadIssuance(s, d, day);
    Mint.ReadEvolves(s, d, day);
    Mint.ReadEvolves(once, d, day');
    Mint.EvolvesTransitive(s, once, Market.ReadIssuance(once, d, day'));
  }

  /** The reads of `ComputeLunaDelta` change nothing that can be observed; on later days they track Luna. */
  lemma {:induction false} LunaReadEvolves(s: Mint.State)
    requires Mint.Sound(s)
    ensures Mint.Evolves(s, Market.AfterLunaDelta(s)) && Market.AfterLunaDelta(s).balances == s.balances
    ensures Day(s.height) > 0 ==> Mint.IsTracked(Market.AfterLunaDelta(s), LUNA)
  {
    var day := Day(s.height);
    if day == 0 {
      EvolvesToItself(s);
    } else if Market.IssuanceOn(s, LUNA, day - 1) == 0 {
      Mint.ReadEvolves(s, LUNA, day - 1);
    } else {
      TwoReadsEvolve(s, LUNA, day - 1, day);
    }
  }

  lemma {:induction false} ReadsEvolve(s: Mint.State, o: Market.Offer)
    requires Mint.Sound(s)
    ensures Mint.Evolves(s, Market.AfterReads(s, o)) && Market.AfterReads(s, o).balances == s.balances
    ensures Market.InvolvesLuna(o) && Day(s.height) > 0 ==> Mint.IsTracked(Market.AfterReads(s, o), LUNA)
  {
    if Market.InvolvesLuna(o) {
      LunaReadEvolves(s);
    } else {
      EvolvesToItself(s);
    }
  }

  /** Balances moved by exactly the offer and the asked amount less the fee. */
  ghost predicate Moved(b: Book, b': Book, o: Market.Offer, amount: int, fee: int)
  {
    forall e :: BookTotal(b', e)
        == BookTotal(b, e) + (if e == o.ask then amount - fee else 0) - (if e == o.denom then o.amount else 0)
  }

  lemma {:induction false} ExchangeEvolves(s: Mint.State, trader: Addr, o: Market.Offer, amount: int, fee: int)
    requires Mint.Sound(s) && Market.Exchange(s, trader, o, amount, fee).Ok?
    ensures var r := Market.Exchange(s, trader, o, amount, fee).value;
            && r.fee == fee <= amount && Mint.Evolves(s, r.mint) && Mint.IsTracked(r.mint, o.ask)
            && Moved(s.balances, r.mint.balances, o, amount, fee)
  {
    var burnt := Mint.BurnCoin(s, trader, o.denom, o.amount).value;
    var minted := Mint.MintCoin(burnt, trader, o.ask, amount - fee).value;
    BurnEvolves(s, trader, o.denom, o.amount);
    MintEvolves(burnt, trader, o.ask, amount - fee);
    assert Mint.Evolves(s, minted) by { Mint.EvolvesTransitive(s, burnt, minted); }
    assert Market.Exchange(s, trader, o, amount, fee).value == Market.Swapped(minted, fee);
    forall e
      ensures BookTotal(minted.balances, e)
           == BookTotal(s.balances, e)
               + (if e == o.ask then amount - fee else 0) - (if e == o.denom then o.amount else 0)
    {
      assert BookTotal(burnt.balances, e) == BookTotal(s.balances, e) - (if e == o.denom then o.amount else 0);
    }
  }

  /** A swap is an evolution that moves balances by the offer and the asked amount less the fee. */
  lemma {:induction false} SwapEvolves(s: Mint.State, params: Market.Params, prices: Market.Prices, trader: Addr,
          o: Market.Offer) returns (amount: int)
    requires Mint.Sound(s) && Market.Swap(s, params, prices, trader, o).Ok?
    ensures Market.QuoteIn(s, params, prices, o).Ok? && amount == Market.QuoteIn(s, params, prices, o).value.amount
    ensures var r := Market.Swap(s, params, prices, trader, o).value;
            && 0 <= r.fee <= amount && Mint.IsTracked(r.mint, o.ask)
            && Mint.Evolves(s, r.mint) && Mint.Evolves(Market.AfterReads(s, o), r.mint)
            && Moved(s.balances, r.mint.balances, o, amount, r.fee)
  {
    var fee;
    amount, fee := Market.SwapParts(s, params, prices, trader, o);
    var read := Market.AfterReads(s, o);
    ReadsEvolve(s, o);
    ExchangeEvolves(read, trader, o, amount, fee);
    Mint.EvolvesTransitive(s, read, Market.Exchange(read, trader, o, amount, fee).value.mint);
  }

  lemma {:induction false} FeePoolKept(w: World, w': World, d: Denom, fee: int)
    requires Inv(w) && Mint.Evolves(w.mint, w'.mint) && Mint.IsTracked(w'.mint, d) && fee >= 0
    requires w' == w.(mint := w'.mint, feePool := AddFee(w.feePool, d, fee), charged := AddFee(w.charged, d, fee))
    ensures Conserves(w, w')
  {
    forall e | e in w'.feePool
      ensures Mint.IsTracked(w'.mint, e)
    {
      assert e in w.feePool ==> Mint.Keeps(w.mint, w'.mint, e);
    }
    EvolutionConserves(w, w');
  }

  lemma {:induction false} SwapConserves(w: World, e: Event)
    requires Inv(w) && e.Swap?
    ensures Conserves(w, Exec(w, e))
  {
    if Market.Swap(w.mint, e.params, e.prices, e.trader, e.offer).Ok? {
      var _ := SwapEvolves(w.mint, e.params, e.prices, e.trader, e.offer);
      var r := Market.Swap(w.mint, e.params, e.prices, e.trader, e.offer).value;
      FeePoolKept(w, Exec(w, e), e.offer.ask, r.fee);
    }
  }

  lemma {:induction false} TransferTotals(b: Book, sender: Addr, recipient: Addr, d: Denom, x: int, e: Denom)
    ensures BookTotal(Transfer(b, sender, recipient, d, x), e) == BookTotal(b, e)
  {
    CreditTotal(b, sender, map[d := -x], e);
    CreditTotal(Credit(b, sender, map[d := -x]), recipient, map[d := x], e);
  }

  lemma {:induction false} TransferNonNegative(b: Book, sender: Addr, recipient: Addr, d: Denom, x: int)
    requires BookNonNegative(b) && 0 <= x <= Get(Row(b, sender), d)
    ensures BookNonNegative(Transfer(b, sender, recipient, d, x))
  {
    assert BookNonNegative(Credit(b, sender, map[d := -x]));
  }

  lemma {:induction false} SendConserves(w: World, e: Event)
    requires Inv(w) && e.Send?
    ensures Conserves(w, Exec(w, e))
  {
    if e.amount > 0 && Get(Row(w.mint.balances, e.sender), e.denom) >= e.amount {
      TransferNonNegative(w.mint.balances, e.sender, e.recipient, e.denom, e.amount);
      forall d
        ensures Unaccounted(Exec(w, e), d) == Unaccounted(w, d)
      {
        TransferTotals(w.mint.balances, e.sender, e.recipient, e.denom, e.amount, d);
      }
    }
  }

  lemma {:induction false} NextBlockConserves(w: World)
    requires Inv(w)
    ensures Conserves(w, Exec(w, NextBlock))
  {
    var w' := Exec(w, NextBlock);
    var today, tomorrow := Day(w.mint.height), Day(w'.mint.height);
    assert today <= tomorrow <= today + 1;
    forall d
      ensures Unaccounted(w', d) == Unaccounted(w, d)
    {
      assert tomorrow > today ==> Mint.Snap(d, tomorrow) !in w.mint.issuance;
    }
  }

  /** Today's issuance of `e` grew by `x`, and its past is what it was. */
  ghost predicate Grew(s: Mint.State, s': Mint.State, e: Denom, x: int)
  {
    && Mint.IsTracked(s', e)
    && Mint.Current(s', e) == Mint.Current(s, e) + x
    && Mint.SamePast(s.issuance, s'.issuance, e, Day(s.height))
  }

  lemma {:induction false} GrewOnce(s: Mint.State, mid: Mint.State, d: Denom, fee: int, e: Denom, x: int)
    requires Mint.Sound(mid) && mid.height == s.height && Mint.IsTracked(s, e) && Grew(s, mid, e, x)
    requires Mint.IssuanceChanged(mid, d, fee).Ok?
    ensures Grew(s, Mint.IssuanceChanged(mid, d, fee).value, e, x + (if e == d then fee else 0))
  {
    Mint.ChangeEffect(mid, d, fee, e);
  }

  /** Adding the fee coins to the issuance of tracked denominations always succeeds and adds each once. */
  lemma {:induction false} ChangeInOrderEffect(s: Mint.State, pool: Coins, order: seq<Denom>)
    requires Mint.Sound(s) && NonNegative(pool)
    requires forall d :: d in order ==> d in pool
    requires forall i, j :: 0 <= i < j < |order| ==> order[i] != order[j]
    ensures var s' := ChangeInOrder(s, pool, order);
            && Mint.Sound(s') && s'.height == s.height && s'.balances == s.balances
            && forall e :: Mint.IsTracked(s, e) ==> Grew(s, s', e, if e in order then pool[e] else 0)
    decreases |order|
  {
    if order != [] {
      var front, d := order[..|order| - 1], order[|order| - 1];
      ChangeInOrderEffect(s, pool, front);
      var mid := ChangeInOrder(s, pool, front);
      FeeAlwaysFits(mid, d, pool[d]);
      Mint.ChangeSound(mid, d, pool[d]);
      forall e | Mint.IsTracked(s, e)
        ensures Grew(s, ChangeInOrder(s, pool, order), e, if e in order then pool[e] else 0)
      {
        GrewOnce(s, mid, d, pool[d], e, if e in front then pool[e] else 0);
        assert e in order <==> e in front || e == d;
        assert d !in front;
      }
    }
  }

  /** The code treats a failing issuance change at settlement as impossible, and it is. */
  lemma {:induction false} FeeAlwaysFits(s: Mint.State, d: Denom, fee: int)
    requires Mint.Sound(s) && fee >= 0
    ensures Mint.IssuanceChanged(s, d, fee).Ok?
  {
    BookTotalNonNegative(s.balances, d);
    Mint.LookupNonNegative(s.issuance, BookTotal(s.balances, d), d, Day(s.height), Day(s.height));
  }

  /** Changing the issuance of some denominations starts tracking no other. */
  lemma {:induction false} ChangesTrackOwn(s: Mint.State, pool: Coins, order: seq<Denom>, e: Denom)
    requires e !in order
    ensures Mint.IsTracked(ChangeInOrder(s, pool, order), e) <==> Mint.IsTracked(s, e)
    decreases |order|
  {
    if order != [] {
      var before, d := ChangeInOrder(s, pool, order[..|order| - 1]), order[|order| - 1];
      ChangesTrackOwn(s, pool, order[..|order| - 1], e);
      if Mint.IssuanceChanged(before, d, Get(pool, d)).Ok? {
        Mint.ChangeTracksOwn(before, d, Get(pool, d), e);
      }
    }
  }

  /** Today's issuance of every denomination grows by what the pool holds of it. */
  lemma {:induction false} FeesIssued(w: World, order: seq<Denom>, d: Denom)
    requires Inv(w) && Lists(order, w.feePool.Keys)
    ensures var s' := ChangeInOrder(w.mint, w.feePool, order);
            && Mint.Sound(s') && s'.height == w.mint.height && s'.balances == w.mint.balances
            && Mint.Current(s', d) == Mint.Current(w.mint, d) + Get(w.feePool, d)
  {
    var s' := ChangeInOrder(w.mint, w.feePool, order);
    ChangeInOrderEffect(w.mint, w.feePool, order);
    if Mint.IsTracked(w.mint, d) {
      assert Grew(w.mint, s', d, Get(w.feePool, d));
    } else {
      ChangesTrackOwn(w.mint, w.feePool, order, d);
      Mint.UntrackedLookup(w.mint, d, Day(w.mint.height));
      Mint.UntrackedLookup(s', d, Day(w.mint.height));
    }
  }

  lemma {:induction false} SettleAccounts(w: World, vals: set<Addr>, order: seq<Denom>, d: Denom)
    requires Inv(w) && Lists(order, w.feePool.Keys) && Total(w.claims) != 0 && w.feePool != map[]
    ensures Unaccounted(Settled(w, vals, order), d) == Unaccounted(w, d)
  {
    FeesIssued(w, order, d);
    OracleSettlement.SettleConserves(w.rewards, w.collected, w.claims, vals, w.feePool, d);
  }

  lemma {:induction false} SettleKeepsInv(w: World, vals: set<Addr>, order: seq<Denom>)
    requires Inv(w) && Lists(order, w.feePool.Keys) && Total(w.claims) != 0 && w.feePool != map[]
    requires Mint.Sound(ChangeInOrder(w.mint, w.feePool, order))
    ensures Inv(Settled(w, vals, order))
  {
    var w' := Settled(w, vals, order);
    assert w'.feePool == map[] && w'.claims == map[] && w'.settled == AddCoins(w.settled, w.feePool)
           && w'.charged == w.charged;
    forall d
      ensures Get(w'.charged, d) == Get(w'.feePool, d) + Get(w'.settled, d)
    {
      AddCoinsGet(w.settled, w.feePool, d);
    }
  }

  lemma {:induction false} SettleConserves(w: World, vals: set<Addr>, order: seq<Denom>)
    requires Inv(w) && Lists(order, w.feePool.Keys)
    ensures Conserves(w, Settled(w, vals, order))
  {
    if Total(w.claims) != 0 && w.feePool != map[] {
      ChangeInOrderEffect(w.mint, w.feePool, order);
      SettleKeepsInv(w, vals, order);
      forall d
        ensures Unaccounted(Settled(w, vals, order), d) == Unaccounted(w, d)
      {
        SettleAccounts(w, vals, order, d);
      }
    }
  }

  lemma {:induction false} MintConserves(w: World, e: Event)
    requires Inv(w) && (e.MintTo? || e.BurnFrom?)
    ensures Conserves(w, Exec(w, e))
  {
    match e
    case MintTo(a, d, x) =>
      if Mint.MintCoin(w.mint, a, d, x).Ok? {
        MintEvolves(w.mint, a, d, x);
        FeePoolKept(w, Exec(w, e), d, 0);
      }
    case BurnFrom(a, d, x) =>
      if Mint.BurnCoin(w.mint, a, d, x).Ok? {
        BurnEvolves(w.mint, a, d, x);
        FeePoolKept(w, Exec(w, e), d, 0);
      }
  }

  lemma {:induction false} ExecConserves(w: World, e: Event)
    requires Inv(w)
    ensures Conserves(w, Exec(w, e))
  {
    match e
    case Swap(_, _, _, _) => SwapConserves(w, e);
    case MintTo(_, _, _) => MintConserves(w, e);
    case BurnFrom(_, _, _) => MintConserves(w, e);
    case Send(_, _, _, _) => SendConserves(w, e);
    case Tally(_) =>
    case Settle(vals, order) =>
      if Lists(order, w.feePool.Keys) {
        SettleConserves(w, vals, order);
      }
    case NextBlock => NextBlockConserves(w);
  }

  /** Over every run recorded issuance moves exactly with account balances, validator rewards and collected fees
      together, in every denomination, and all fees ever charged are in the pool or have been paid out. */
  lemma {:induction false} SupplyConservation(w: World, events: seq<Event>)
    requires Inv(w)
    ensures Conserves(w, Run(w, events))
    decreases |events|
  {
    if events != [] {
      var before := Run(w, events[..|events| - 1]);
      SupplyConservation(w, events[..|events| - 1]);
      ExecConserves(before, events[|events| - 1]);
    }
  }

  /** A chain on which nothing has looked at an issuance, charged a fee or paid a reward yet. */
  ghost predicate Genesis(w: World)
  {
    && BookNonNegative(w.mint.balances) && w.mint.issuance == map[]
    && w.feePool == map[] && w.claims == map[] && w.rewards == map[] && w.collected == map[]
    && w.charged == map[] && w.settled == map[]
  }

  lemma {:induction false} GenesisInv(w: World)
    requires Genesis(w)
    ensures Inv(w) && forall d :: Unaccounted(w, d) == 0
  {
    forall d
      ensures Unaccounted(w, d) == 0
    {
      Mint.UntrackedLookup(w.mint, d, Day(w.mint.height));
      assert Column(w.rewards, d) == map[];
    }
  }

  /** On every run from genesis the issuance recorded for today is what accounts, validators and the fee collector
      hold together: not a coin more, not a coin less. */
  lemma {:induction false} SupplyIsHeld(w: World, events: seq<Event>, d: Denom)
    requires Genesis(w)
    ensures var now := Run(w, events);
            && Inv(now) && Mint.Current(now.mint, d) == Holdings(now, d)
            && Get(now.charged, d) == Get(now.feePool, d) + Get(now.settled, d)
  {
    GenesisInv(w);
    SupplyConservation(w, events);
    assert Unaccounted(Run(w, events), d) == Unaccounted(w, d);
  }

  // ---------------------------------------------------------------------------
  // Which swaps are accepted

  /** A mint fails only for want of a positive amount. */
  lemma {:induction false} MintFits(s: Mint.State, r: Addr, d: Denom, x: int)
    requires Mint.Sound(s)
    ensures Mint.MintCoin(s, r, d, x).Ok? <==> x > 0
    ensures x > 0 ==> Mint.MintCoin(s, r, d, x).value.balances == Credit(s.balances, r, map[d := x])
  {
    if x > 0 {
      var credited := s.(balances := Credit(s.balances, r, map[d := x]));
      assert BookNonNegative(credited.balances);
      FeeAlwaysFits(credited, d, x);
    }
  }

  /** A burn fails only for want of coins, while recorded issuance covers what accounts hold. */
  lemma {:induction false} BurnFits(s: Mint.State, payer: Addr, d: Denom, x: int)
    requires Mint.Sound(s) && Mint.Gap(s, d) >= 0
    ensures Mint.BurnCoin(s, payer, d, x).Ok? <==> 0 < x <= Get(Row(s.balances, payer), d)
    ensures Mint.BurnCoin(s, payer, d, x).Ok? ==>
              var s' := Mint.BurnCoin(s, payer, d, x).value;
              Mint.Sound(s') && s'.balances == Credit(s.balances, payer, map[d := -x])
  {
    if 0 < x <= Get(Row(s.balances, payer), d) {
      AccountAtMostTotal(s.balances, payer, d);
      if Mint.IsTracked(s, d) {
        var debited := Credit(s.balances, payer, map[d := -x]);
        Mint.TotalUnused(s.issuance, BookTotal(s.balances, d), BookTotal(debited, d), d, Day(s.height));
      }
      BurnEvolves(s, payer, d, x);
    }
  }

  /** What a swap demands of the quote, given what the trader has of the coin it offers. */
  predicate Acceptable(quote: Result<Market.Quote, Market.Error>, o: Market.Offer, balance: int)
  {
    && o.denom != o.ask && quote.Ok? && Market.SwapFee(quote.value) < quote.value.amount
    && 0 < o.amount <= balance
  }

  lemma {:induction false} MintRestFits(burnt: Result<Mint.State, Mint.Error>, trader: Addr, ask: Denom, rest: int,
          fee: int)
    requires burnt.Ok? ==> Mint.Sound(burnt.value)
    ensures Market.MintRest(burnt, trader, ask, rest, fee).Ok? <==> burnt.Ok? && rest > 0
  {
    if burnt.Ok? {
      MintFits(burnt.value, trader, ask, rest);
    }
  }

  lemma {:induction false} ExchangeFits(s: Mint.State, trader: Addr, o: Market.Offer, amount: int, fee: int)
    requires Mint.Sound(s) && Mint.Gap(s, o.denom) >= 0
    ensures Market.Exchange(s, trader, o, amount, fee).Ok?
       <==> fee < amount && 0 < o.amount <= Get(Row(s.balances, trader), o.denom)
  {
    BurnFits(s, trader, o.denom, o.amount);
    MintRestFits(Mint.BurnCoin(s, trader, o.denom, o.amount), trader, o.ask, amount - fee, fee);
  }

  /** An exchange takes the offer from the trader. */
  lemma {:induction false} ExchangeTakes(s: Mint.State, trader: Addr, o: Market.Offer, amount: int, fee: int)
    requires Market.Exchange(s, trader, o, amount, fee).Ok? && o.denom != o.ask
    ensures Get(Row(Market.Exchange(s, trader, o, amount, fee).value.mint.balances, trader), o.denom)
         == Get(Row(s.balances, trader), o.denom) - o.amount
  {
    var burnt := Mint.BurnCoin(s, trader, o.denom, o.amount).value;
    CreditRow(s.balances, trader, o.denom, -o.amount, trader, o.denom);
    CreditRow(burnt.balances, trader, o.ask, amount - fee, trader, o.denom);
  }

  lemma {:induction false} ReadFits(s: Mint.State, o: Market.Offer)
    requires Mint.Sound(s)
    ensures var read := Market.AfterReads(s, o);
            Mint.Sound(read) && read.balances == s.balances && Mint.Gap(read, o.denom) == Mint.Gap(s, o.denom)
  {
    ReadsEvolve(s, o);
    Mint.EvolvesGap(s, Market.AfterReads(s, o), o.denom);
  }

  lemma {:induction false} QuotedFits(quote: Result<Market.Quote, Market.Error>, s: Mint.State, trader: Addr,
          o: Market.Offer)
    requires Mint.Sound(s) && Mint.Gap(s, o.denom) >= 0 && o.denom != o.ask
    ensures Market.ExchangeQuoted(quote, s, trader, o).Ok?
       <==> Acceptable(quote, o, Get(Row(s.balances, trader), o.denom))
  {
    if quote.Ok? {
      ExchangeFits(s, trader, o, quote.value.amount, Market.SwapFee(quote.value));
    }
  }

  /** A swap is accepted exactly when it is acceptable. */
  lemma {:induction false} SwapFits(s: Mint.State, params: Market.Params, prices: Market.Prices, trader: Addr,
          o: Market.Offer)
    requires Mint.Sound(s) && Mint.Gap(s, o.denom) >= 0
    ensures Market.Swap(s, params, prices, trader, o).Ok?
       <==> Acceptable(Market.QuoteIn(s, params, prices, o), o, Get(Row(s.balances, trader), o.denom))
  {
    ReadFits(s, o);
    if o.denom != o.ask {
      QuotedFits(Market.QuoteIn(s, params, prices, o), Market.AfterReads(s, o), trader, o);
    }
  }

  /** What validators and the fee collector hold. */
  ghost function Outside(w: World, d: Denom): int
  {
    BookTotal(w.rewards, d) + Get(w.collected, d)
  }

  lemma {:induction false} SettlingGrowsOutside(w: World, vals: set<Addr>, order: seq<Denom>, d: Denom)
    requires Inv(w)
    ensures Outside(Settled(w, vals, order), d) >= Outside(w, d)
  {
    if Total(w.claims) != 0 {
      OracleSettlement.SettleConserves(w.rewards, w.collected, w.claims, vals, w.feePool, d);
      EntryAtMostTotal(w.feePool, d);
    }
  }

  lemma {:induction false} OutsideGrows(w: World, e: Event, d: Denom)
    requires Inv(w)
    ensures Outside(Exec(w, e), d) >= Outside(w, d)
  {
    match e
    case Settle(vals, order) => SettlingGrowsOutside(w, vals, order, d);
    case Swap(_, _, _, _) =>
    case MintTo(_, _, _) =>
    case BurnFrom(_, _, _) =>
    case Send(_, _, _, _) =>
    case Tally(_) =>
    case NextBlock =>
  }

  lemma {:induction false} OutsideNonNegative(w: World, events: seq<Event>, d: Denom)
    requires Genesis(w)
    ensures Outside(Run(w, events), d) >= 0
    decreases |events|
  {
    if events == [] {
      assert Column(w.rewards, d) == map[];
    } else {
      OutsideNonNegative(w, events[..|events| - 1], d);
      SupplyIsHeld(w, events[..|events| - 1], d);
      OutsideGrows(Run(w, events[..|events| - 1]), events[|events| - 1], d);
    }
  }

  /** On every run from genesis a swap is accepted if and only if its coins differ, it is quoted, the fee leaves
      something to mint, and the trader has what it offers. No swap ever fails for lack of recorded issuance. */
  lemma {:induction false} SwapAcceptedExactly(w: World, events: seq<Event>, e: Event)
    requires Genesis(w) && e.Swap?
    ensures var s := Run(w, events).mint;
            && Mint.Sound(s) && Mint.Gap(s, e.offer.denom) >= 0
            && (Market.Swap(s, e.params, e.prices, e.trader, e.offer).Ok?
                <==> Acceptable(Market.QuoteIn(s, e.params, e.prices, e.offer), e.offer,
                    Get(Row(s.balances, e.trader), e.offer.denom)))
  {
    SupplyIsHeld(w, events, e.offer.denom);
    OutsideNonNegative(w, events, e.offer.denom);
    SwapFits(Run(w, events).mint, e.params, e.prices, e.trader, e.offer);
  }
}
