/** The daily cap on changes of the Luna supply (x/market/keeper.go), over whole days of swaps and settlements. */
module DailyCap {
  import opened Wrappers
  import opened Sums
  import opened Coins
  import opened Epoch
  import Dec
  import Mint
  import Market
  import opened Ledger

  ghost function Yesterday(w: World): int
  {
    Market.IssuanceOn(w.mint, LUNA, Day(w.mint.height) - 1)
  }

  ghost function Today(w: World): int
  {
    Mint.Current(w.mint, LUNA)
  }

  /** The relative change from `yesterday` to `today`, truncated as the code does, is at most `cap` either way. */
  predicate Within(yesterday: int, today: int, cap: int)
    requires yesterday != 0
  {
    Dec.Abs(Dec.QuoInt(Dec.FromInt(today - yesterday), yesterday)) <= cap
  }

  /** The supplies of today that the cap allows, given yesterday's. */
  ghost function Allowed(yesterday: int, cap: int): iset<int>
    requires yesterday != 0
  {
    iset t: int | Within(yesterday, t, cap)
  }

  ghost predicate Convex(ok: iset<int>)
  {
    forall low, mid, high :: low in ok && high in ok && low <= mid <= high ==> mid in ok
  }

  /** `t` is allowed once at most `slack` of it is disregarded. */
  ghost predicate Near(ok: iset<int>, t: int, slack: int)
  {
    exists p :: p in ok && t - slack <= p <= t
  }

  lemma {:induction false} AllowedConvex(yesterday: int, cap: int)
    requires yesterday > 0
    ensures Convex(Allowed(yesterday, cap))
  {
    forall low, mid, high | low in Allowed(yesterday, cap) && high in Allowed(yesterday, cap) && low <= mid <= high
      ensures mid in Allowed(yesterday, cap)
    {
      Dec.TruncDivMonotone(Dec.FromInt(low - yesterday), Dec.FromInt(mid - yesterday), yesterday);
      Dec.TruncDivMonotone(Dec.FromInt(mid - yesterday), Dec.FromInt(high - yesterday), yesterday);
    }
  }

  /** An unchanged supply is allowed by any cap. */
  lemma {:induction false} UnchangedIsAllowed(yesterday: int, cap: int)
    requires yesterday != 0 && cap >= 0
    ensures yesterday in Allowed(yesterday, cap)
  {
  }

  /** The quote checks the supply as it would be without the fee. */
  lemma {:induction false} QuoteChecksCap(s: Mint.State, params: Market.Params, prices: Market.Prices, o: Market.Offer,
          amount: int)
    requires Day(s.height) > 0 && Market.IssuanceOn(s, LUNA, Day(s.height) - 1) != 0 && Market.InvolvesLuna(o)
    requires Market.QuoteIn(s, params, prices, o).Ok? && amount == Market.QuoteIn(s, params, prices, o).value.amount
    ensures Mint.Current(s, LUNA) + CheckedChange(o, amount)
              in Allowed(Market.IssuanceOn(s, LUNA, Day(s.height) - 1), params.dailyLunaDeltaCap)
  {
  }

  lemma {:induction false} MoveStaysNear(ok: iset<int>, t: int, t': int, change: int, slack: nat)
    requires Convex(ok) && Near(ok, t, slack) && t + change in ok
    requires t' == t + change || t <= t' <= t + change
    ensures Near(ok, t', slack)
  {
    var p :| p in ok && t - slack <= p <= t;
    assert p + (t' - t) in ok || t' in ok by {
      assert t' != t + change ==> p <= p + (t' - t) <= t + change;
    }
  }

  lemma {:induction false} PastKept(s: Mint.State, s': Mint.State)
    requires Mint.Evolves(s, s') && Mint.IsTracked(s, LUNA) && Day(s.height) > 0
    ensures Mint.IsTracked(s', LUNA)
    ensures Market.IssuanceOn(s', LUNA, Day(s.height) - 1) == Market.IssuanceOn(s, LUNA, Day(s.height) - 1)
    ensures Mint.Current(s', LUNA) - BookTotal(s'.balances, LUNA) == Mint.Current(s, LUNA) - BookTotal(s.balances, LUNA)
  {
    assert Mint.Keeps(s, s', LUNA);
    Mint.TotalUnused(s.issuance, BookTotal(s.balances, LUNA), BookTotal(s'.balances, LUNA), LUNA, Day(s.height) - 1);
  }

  /** The day is the one it was, with the same supply the day before. */
  ghost predicate SameDay(w: World, w': World)
  {
    Day(w'.mint.height) == Day(w.mint.height) && Yesterday(w') == Yesterday(w)
  }

  /** What an accepted swap of `amount` does to the Luna supply. */
  ghost predicate MovesLuna(w: World, w': World, o: Market.Offer, amount: int)
  {
    && SameDay(w, w')
    && (o.denom == LUNA ==> Today(w') == Today(w) - o.amount)
    && (o.denom != LUNA && o.ask == LUNA ==> Today(w) <= Today(w') <= Today(w) + amount)
    && (!Market.InvolvesLuna(o) ==> Today(w') == Today(w))
  }

  lemma {:induction false} SwapMovesLuna(w: World, e: Event) returns (amount: int)
    requires Inv(w) && e.Swap? && Day(w.mint.height) > 0 && Mint.IsTracked(w.mint, LUNA)
    requires Market.Swap(w.mint, e.params, e.prices, e.trader, e.offer).Ok?
    ensures Market.QuoteIn(w.mint, e.params, e.prices, e.offer).Ok?
    ensures amount == Market.QuoteIn(w.mint, e.params, e.prices, e.offer).value.amount
    ensures MovesLuna(w, Exec(w, e), e.offer, amount)
  {
    amount := SwapEvolves(w.mint, e.params, e.prices, e.trader, e.offer);
    var r := Market.Swap(w.mint, e.params, e.prices, e.trader, e.offer).value;
    PastKept(w.mint, r.mint);
    assert BookTotal(r.mint.balances, LUNA) == BookTotal(w.mint.balances, LUNA)
      + (if LUNA == e.offer.ask then amount - r.fee else 0) - (if LUNA == e.offer.denom then e.offer.amount else 0);
  }

  ghost function CheckedChange(o: Market.Offer, amount: int): int
  {
    if o.denom == LUNA then -o.amount else amount
  }

  /** An accepted Luna swap was checked against the cap, and ends up between the old supply and the one checked. */
  lemma {:induction false} SwapChecked(w: World, e: Event) returns (amount: int)
    requires Inv(w) && e.Swap? && Day(w.mint.height) > 0 && Mint.IsTracked(w.mint, LUNA) && Yesterday(w) != 0
    requires Market.Swap(w.mint, e.params, e.prices, e.trader, e.offer).Ok? && Market.InvolvesLuna(e.offer)
    ensures MovesLuna(w, Exec(w, e), e.offer, amount)
    ensures Today(w) + CheckedChange(e.offer, amount) in Allowed(Yesterday(w), e.params.dailyLunaDeltaCap)
  {
    amount := SwapMovesLuna(w, e);
    QuoteChecksCap(w.mint, e.params, e.prices, e.offer, amount);
  }

  // ---------------------------------------------------------------------------
  // Before anything has looked at the Luna supply

  lemma {:induction false} StillUntracked(w: World, w': World)
    requires Mint.Sound(w.mint) && Mint.Sound(w'.mint) && Day(w.mint.height) > 0
             && Day(w'.mint.height) == Day(w.mint.height)
    requires !Mint.IsTracked(w.mint, LUNA) && !Mint.IsTracked(w'.mint, LUNA)
    requires BookTotal(w'.mint.balances, LUNA) == BookTotal(w.mint.balances, LUNA)
    ensures SameDay(w, w') && Today(w') == Today(w)
  {
    var day := Day(w.mint.height);
    Mint.UntrackedLookup(w.mint, LUNA, day - 1);
    Mint.UntrackedLookup(w.mint, LUNA, day);
    Mint.UntrackedLookup(w'.mint, LUNA, day - 1);
    Mint.UntrackedLookup(w'.mint, LUNA, day);
  }

  lemma {:induction false} ExchangeTracksOwn(s: Mint.State, trader: Addr, o: Market.Offer, amount: int, fee: int)
    requires Market.Exchange(s, trader, o, amount, fee).Ok? && !Market.InvolvesLuna(o)
    ensures Mint.IsTracked(Market.Exchange(s, trader, o, amount, fee).value.mint, LUNA) <==> Mint.IsTracked(s, LUNA)
  {
    var burnt := Mint.BurnCoin(s, trader, o.denom, o.amount).value;
    Mint.ChangeTracksOwn(s.(balances := Credit(s.balances, trader, map[o.denom := -o.amount])), o.denom, -o.amount,
        LUNA);
    Mint.ChangeTracksOwn(burnt.(balances := Credit(burnt.balances, trader, map[o.ask := amount - fee])), o.ask,
        amount - fee, LUNA);
  }

  /** A swap that does not involve Luna leaves its supply alone. */
  lemma {:induction false} OtherSwap(w: World, e: Event)
    requires Inv(w) && e.Swap? && Day(w.mint.height) > 0 && !Market.InvolvesLuna(e.offer)
    requires Market.Swap(w.mint, e.params, e.prices, e.trader, e.offer).Ok?
    ensures SameDay(w, Exec(w, e)) && Today(Exec(w, e)) == Today(w)
  {
    if Mint.IsTracked(w.mint, LUNA) {
      var _ := SwapMovesLuna(w, e);
    } else {
      var amount := SwapEvolves(w.mint, e.params, e.prices, e.trader, e.offer);
      var fee;
      amount, fee := Market.SwapParts(w.mint, e.params, e.prices, e.trader, e.offer);
      ExchangeTracksOwn(w.mint, e.trader, e.offer, amount, fee);
      StillUntracked(w, Exec(w, e));
    }
  }

  /** The world once the quote of a Luna swap has read the supply. */
  ghost function Warm(w: World): World { w.(mint := Market.AfterLunaDelta(w.mint)) }

  lemma {:induction false} SecondRead(s: Mint.State, day: nat)
    ensures var r := Market.ReadIssuance(Market.ReadIssuance(s, LUNA, day), LUNA, day + 1);
            && Mint.Snap(LUNA, day) in r.issuance && r.issuance[Mint.Snap(LUNA, day)] == Market.IssuanceOn(s, LUNA, day)
            && Mint.Snap(LUNA, day + 1) in r.issuance
               && r.issuance[Mint.Snap(LUNA, day + 1)] == Market.IssuanceOn(s, LUNA, day + 1)
  {
    var total := BookTotal(s.balances, LUNA);
    var once := Mint.Fill(s.issuance, total, LUNA, day);
    Mint.FillHasDay(s.issuance, total, LUNA, day);
    Mint.ReadsAreInvisible(s.issuance, total, LUNA, day, total, LUNA, day + 1);
    Mint.FillHasDay(once, total, LUNA, day + 1);
    Mint.FillContents(once, total, LUNA, day + 1, Mint.Snap(LUNA, day));
  }

  /** Reading changes nothing that the swap sees, and a second read stores nothing. */
  lemma {:induction false} WarmReads(s: Mint.State)
    requires Day(s.height) > 0 && Market.IssuanceOn(s, LUNA, Day(s.height) - 1) != 0
    ensures var r := Market.AfterLunaDelta(s);
            && Market.AfterLunaDelta(r) == r
            && Market.IssuanceOn(r, LUNA, Day(s.height) - 1) == Market.IssuanceOn(s, LUNA, Day(s.height) - 1)
            && Mint.Current(r, LUNA) == Mint.Current(s, LUNA)
  {
    SecondRead(s, Day(s.height) - 1);
  }

  lemma {:induction false} EvolvedInv(w: World, s: Mint.State)
    requires Inv(w) && Mint.Evolves(w.mint, s)
    ensures Inv(w.(mint := s))
  {
    assert forall d :: d in w.feePool ==> Mint.Keeps(w.mint, s, d);
    EvolutionConserves(w, w.(mint := s));
  }

  /** The supply is tracked once it has been read, and the world is otherwise the same. */
  lemma {:induction false} WarmWorld(w: World)
    requires Inv(w) && Day(w.mint.height) > 0 && Yesterday(w) != 0
    ensures Inv(Warm(w)) && Mint.IsTracked(Warm(w).mint, LUNA)
  {
    LunaReadEvolves(w.mint);
    EvolvedInv(w, Market.AfterLunaDelta(w.mint));
  }

  lemma {:induction false} WarmSupply(w: World)
    requires Day(w.mint.height) > 0 && Yesterday(w) != 0
    ensures SameDay(w, Warm(w)) && Today(Warm(w)) == Today(w)
  {
    WarmReads(w.mint);
  }

  /** So a Luna swap does the same once the supply has been read. */
  lemma {:induction false} WarmSwap(s: Mint.State, params: Market.Params, prices: Market.Prices, trader: Addr,
          o: Market.Offer)
    requires Day(s.height) > 0 && Market.IssuanceOn(s, LUNA, Day(s.height) - 1) != 0 && Market.InvolvesLuna(o)
    ensures Market.Swap(Market.AfterLunaDelta(s), params, prices, trader, o)
            == Market.Swap(s, params, prices, trader, o)
  {
    WarmReads(s);
    var r := Market.AfterLunaDelta(s);
    assert Market.QuoteIn(r, params, prices, o) == Market.QuoteIn(s, params, prices, o);
    assert Market.AfterReads(r, o) == Market.AfterReads(s, o);
  }

  lemma {:induction false} WarmExec(w: World, e: Event)
    requires e.Swap? && Day(w.mint.height) > 0 && Yesterday(w) != 0 && Market.InvolvesLuna(e.offer)
    requires Market.Swap(w.mint, e.params, e.prices, e.trader, e.offer).Ok?
    ensures Market.Swap(Warm(w).mint, e.params, e.prices, e.trader, e.offer).Ok? && Exec(Warm(w), e) == Exec(w, e)
  {
    WarmSwap(w.mint, e.params, e.prices, e.trader, e.offer);
  }

  /** One swap of a tracked supply, accepted or not. */
  lemma {:induction false} TrackedSwapStaysNear(w: World, e: Event, slack: nat, ok: iset<int>)
    requires Inv(w) && e.Swap? && Day(w.mint.height) > 0 && Mint.IsTracked(w.mint, LUNA) && Yesterday(w) != 0
    requires ok == Allowed(Yesterday(w), e.params.dailyLunaDeltaCap) && Convex(ok) && Near(ok, Today(w), slack)
    requires Market.InvolvesLuna(e.offer)
    ensures SameDay(w, Exec(w, e)) && Near(ok, Today(Exec(w, e)), slack)
  {
    if Market.Swap(w.mint, e.params, e.prices, e.trader, e.offer).Ok? {
      var amount := SwapChecked(w, e);
      MoveStaysNear(ok, Today(w), Today(Exec(w, e)), CheckedChange(e.offer, amount), slack);
    }
  }

  /** One swap, accepted or not. */
  lemma {:induction false} SwapStaysNear(w: World, e: Event, slack: nat, ok: iset<int>)
    requires Inv(w) && e.Swap? && Day(w.mint.height) > 0 && Yesterday(w) != 0
    requires ok == Allowed(Yesterday(w), e.params.dailyLunaDeltaCap) && Convex(ok) && Near(ok, Today(w), slack)
    ensures SameDay(w, Exec(w, e)) && Near(ok, Today(Exec(w, e)), slack)
  {
    if Market.Swap(w.mint, e.params, e.prices, e.trader, e.offer).Ok? {
      if Market.InvolvesLuna(e.offer) {
        WarmWorld(w);
        WarmSupply(w);
        WarmExec(w, e);
        TrackedSwapStaysNear(Warm(w), e, slack, ok);
      } else {
        OtherSwap(w, e);
      }
    }
  }

  /** A settlement adds the Luna fees of the pool to today's supply, unless there are no claims to settle. */
  lemma {:induction false} SettleMovesLuna(w: World, vals: set<Addr>, order: seq<Denom>)
    requires Inv(w) && Day(w.mint.height) > 0 && Lists(order, w.feePool.Keys)
    ensures SameDay(w, Settled(w, vals, order))
    ensures Today(Settled(w, vals, order)) == Today(w) + (if Total(w.claims) == 0 then 0 else Get(w.feePool, LUNA))
  {
    if Total(w.claims) != 0 && w.feePool != map[] {
      ChangeInOrderEffect(w.mint, w.feePool, order);
      var s' := ChangeInOrder(w.mint, w.feePool, order);
      assert Settled(w, vals, order).mint == s';
      if Mint.IsTracked(w.mint, LUNA) {
        var total := BookTotal(w.mint.balances, LUNA);
        assert Grew(w.mint, s', LUNA, Get(w.feePool, LUNA));
        Mint.TotalUnused(w.mint.issuance, total, BookTotal(s'.balances, LUNA), LUNA, Day(w.mint.height) - 1);
      } else {
        ChangesTrackOwn(w.mint, w.feePool, order, LUNA);
        StillUntracked(w, Settled(w, vals, order));
      }
    }
  }

  /** The fees withheld so far fit under the cap on top of today's supply, or there are no claims to settle. */
  ghost predicate FeesFit(w: World, ok: iset<int>)
  {
    Total(w.claims) == 0 || Today(w) + Get(w.feePool, LUNA) in ok
  }

  /** A settlement keeps an allowed supply allowed exactly when the fees fit. */
  lemma {:induction false} SettleKeepsCapExactly(w: World, vals: set<Addr>, order: seq<Denom>, ok: iset<int>)
    requires Inv(w) && Day(w.mint.height) > 0 && Lists(order, w.feePool.Keys) && Today(w) in ok
    ensures SameDay(w, Settled(w, vals, order))
    ensures Today(Settled(w, vals, order)) in ok <==> FeesFit(w, ok)
  {
    SettleMovesLuna(w, vals, order);
    FeesFitExactly(w, Today(Settled(w, vals, order)), ok);
  }

  lemma {:induction false} FeesFitExactly(w: World, t: int, ok: iset<int>)
    requires Today(w) in ok && t == Today(w) + (if Total(w.claims) == 0 then 0 else Get(w.feePool, LUNA))
    ensures t in ok <==> FeesFit(w, ok)
  {
  }

  /** Settling puts the withheld Luna fees back into circulation: at most that much may lie beyond the cap. */
  lemma {:induction false} SettleStaysNear(w: World, vals: set<Addr>, order: seq<Denom>, slack: nat, ok: iset<int>)
    requires Inv(w) && Day(w.mint.height) > 0
    requires Lists(order, w.feePool.Keys) && Near(ok, Today(w), slack)
    ensures SameDay(w, Settled(w, vals, order)) && Get(w.feePool, LUNA) >= 0
    ensures Near(ok, Today(Settled(w, vals, order)), slack + Get(w.feePool, LUNA))
  {
    SettleMovesLuna(w, vals, order);
    EntryAtMostTotal(w.feePool, LUNA);
    NearMoved(ok, Today(w), Today(Settled(w, vals, order)), slack, Get(w.feePool, LUNA));
  }

  lemma {:induction false} NearMoved(ok: iset<int>, t: int, t': int, slack: nat, more: nat)
    requires Near(ok, t, slack) && t <= t' <= t + more
    ensures Near(ok, t', slack + more)
  {
  }

  // ---------------------------------------------------------------------------
  // A day

  /** Swaps under one cap, transfers, tallies, settlements, and mints and burns of anything but Luna, without crossing
      midnight. */
  ghost predicate DayEvent(w: World, e: Event, cap: int)
  {
    match e
    case Swap(params, _, _, _) => params.dailyLunaDeltaCap == cap
    case NextBlock => Day(w.mint.height + 1) == Day(w.mint.height)
    case MintTo(_, d, _) => d != LUNA
    case BurnFrom(_, d, _) => d != LUNA
    case _ => true
  }

  ghost predicate DayRun(w: World, events: seq<Event>, cap: int)
  {
    events == [] ||
    (DayRun(w, events[..|events| - 1], cap) && DayEvent(Run(w, events[..|events| - 1]), events[|events| - 1], cap))
  }

  /** Luna fees put back into circulation by the settlements of a run. */
  ghost function LunaSettled(w: World, events: seq<Event>): int
  {
    if events == [] then 0
    else
      var before := Run(w, events[..|events| - 1]);
      LunaSettled(w, events[..|events| - 1]) + (if events[|events| - 1].Settle? then Get(before.feePool, LUNA) else 0)
  }

  lemma {:induction false} QuietStaysNear(w: World, e: Event, cap: int)
    requires Inv(w) && DayEvent(w, e, cap) && (e.Send? || e.Tally? || e.NextBlock?)
    requires Day(w.mint.height) > 0
    ensures SameDay(w, Exec(w, e)) && Today(Exec(w, e)) == Today(w)
  {
    QuietTotals(w, e);
    SameSupply(w, Exec(w, e));
  }

  lemma {:induction false} SameSupply(w: World, w': World)
    requires w'.mint.issuance == w.mint.issuance && Day(w'.mint.height) == Day(w.mint.height)
    requires BookTotal(w'.mint.balances, LUNA) == BookTotal(w.mint.balances, LUNA)
    ensures SameDay(w, w') && Today(w') == Today(w)
  {
  }

  /** The supply is the same once another denomination was credited and its issuance changed. */
  lemma {:induction false} OtherChange(w: World, a: Addr, d: Denom, x: int, w': World)
    requires Inv(w) && Day(w.mint.height) > 0 && d != LUNA && Get(Row(w.mint.balances, a), d) + x >= 0
    requires var r := Mint.IssuanceChanged(w.mint.(balances := Credit(w.mint.balances, a, map[d := x])), d, x);
             r.Ok? && w' == w.(mint := r.value)
    ensures SameDay(w, w') && Today(w') == Today(w)
  {
    Mint.CreditAndChangeEvolves(w.mint, a, d, x);
    assert BookTotal(w'.mint.balances, LUNA) == BookTotal(w.mint.balances, LUNA);
    if Mint.IsTracked(w.mint, LUNA) {
      PastKept(w.mint, w'.mint);
    } else {
      Mint.ChangeTracksOwn(w.mint.(balances := Credit(w.mint.balances, a, map[d := x])), d, x, LUNA);
      StillUntracked(w, w');
    }
  }

  lemma {:induction false} OtherMint(w: World, a: Addr, d: Denom, x: int)
    requires Inv(w) && d != LUNA && Day(w.mint.height) > 0
    ensures SameDay(w, Exec(w, MintTo(a, d, x))) && Today(Exec(w, MintTo(a, d, x))) == Today(w)
  {
    AccountAtMostTotal(w.mint.balances, a, d);
    if Mint.MintCoin(w.mint, a, d, x).Ok? {
      OtherChange(w, a, d, x, Exec(w, MintTo(a, d, x)));
    }
  }

  lemma {:induction false} OtherBurn(w: World, a: Addr, d: Denom, x: int)
    requires Inv(w) && d != LUNA && Day(w.mint.height) > 0
    ensures SameDay(w, Exec(w, BurnFrom(a, d, x))) && Today(Exec(w, BurnFrom(a, d, x))) == Today(w)
  {
    if Mint.BurnCoin(w.mint, a, d, x).Ok? {
      OtherChange(w, a, d, -x, Exec(w, BurnFrom(a, d, x)));
    }
  }

  lemma {:induction false} QuietTotals(w: World, e: Event)
    requires e.Send? || e.Tally? || e.NextBlock?
    ensures BookTotal(Exec(w, e).mint.balances, LUNA) == BookTotal(w.mint.balances, LUNA)
  {
    if e.Send? {
      TransferTotals(w.mint.balances, e.sender, e.recipient, e.denom, e.amount, LUNA);
    }
  }

  lemma {:induction false} DayStep(w: World, e: Event, cap: int, slack: nat, ok: iset<int>)
    requires Inv(w) && DayEvent(w, e, cap) && Day(w.mint.height) > 0 && Yesterday(w) != 0
    requires ok == Allowed(Yesterday(w), cap) && Convex(ok) && Near(ok, Today(w), slack)
    ensures SameDay(w, Exec(w, e)) && Get(w.feePool, LUNA) >= 0
    ensures Near(ok, Today(Exec(w, e)), slack + (if e.Settle? then Get(w.feePool, LUNA) else 0))
  {
    EntryAtMostTotal(w.feePool, LUNA);
    match e
    case Swap(_, _, _, _) => SwapStaysNear(w, e, slack, ok);
    case Settle(vals, order) =>
      if Lists(order, w.feePool.Keys) {
        SettleStaysNear(w, vals, order, slack, ok);
      }
    case Send(_, _, _, _) => QuietStaysNear(w, e, cap);
    case Tally(_) => QuietStaysNear(w, e, cap);
    case NextBlock => QuietStaysNear(w, e, cap);
    case MintTo(a, d, x) => OtherMint(w, a, d, x);
    case BurnFrom(a, d, x) => OtherBurn(w, a, d, x);
  }

  /** Over every run within a day that starts within the cap, today's supply stays within the cap of yesterday's,
      apart from at most the withheld Luna fees that settlements have put back. */
  lemma {:induction false} DailyCapHolds(w: World, events: seq<Event>, cap: int)
    requires Inv(w) && Day(w.mint.height) > 0 && Yesterday(w) > 0
    requires Today(w) in Allowed(Yesterday(w), cap) && DayRun(w, events, cap)
    ensures SameDay(w, Run(w, events)) && LunaSettled(w, events) >= 0
    ensures Near(Allowed(Yesterday(w), cap), Today(Run(w, events)), LunaSettled(w, events))
    decreases |events|
  {
    if events != [] {
      var front := events[..|events| - 1];
      DailyCapHolds(w, front, cap);
      SupplyConservation(w, front);
      AllowedConvex(Yesterday(w), cap);
      DayStep(Run(w, front), events[|events| - 1], cap, LunaSettled(w, front), Allowed(Yesterday(w), cap));
    }
  }

  /** The supply was allowed at every moment of the run. */
  ghost predicate CapHeld(w: World, events: seq<Event>, ok: iset<int>)
  {
    Today(Run(w, events)) in ok && (events == [] || CapHeld(w, events[..|events| - 1], ok))
  }

  /** At every settlement of the run the fees withheld until then fitted. */
  ghost predicate FeesAlwaysFit(w: World, events: seq<Event>, ok: iset<int>)
  {
    events == [] ||
    (var before, e := Run(w, events[..|events| - 1]), events[|events| - 1];
     && FeesAlwaysFit(w, events[..|events| - 1], ok)
     && (e.Settle? && Lists(e.order, before.feePool.Keys) ==> FeesFit(before, ok)))
  }

  lemma {:induction false} DayStepExactly(w: World, e: Event, cap: int, ok: iset<int>)
    requires Inv(w) && DayEvent(w, e, cap) && Day(w.mint.height) > 0 && Yesterday(w) != 0
    requires ok == Allowed(Yesterday(w), cap) && Convex(ok) && Today(w) in ok
    ensures Today(Exec(w, e)) in ok <==> (e.Settle? && Lists(e.order, w.feePool.Keys) ==> FeesFit(w, ok))
  {
    if e.Settle? {
      if Lists(e.order, w.feePool.Keys) {
        SettleKeepsCapExactly(w, e.vals, e.order, ok);
      }
    } else {
      DayStep(w, e, cap, 0, ok);
      NearWithoutSlack(ok, Today(Exec(w, e)));
    }
  }

  /** Over every run within a day that starts within the cap, the supply is within the cap at every moment if and only
      if at every settlement the Luna fees withheld until then fit under it. */
  lemma {:induction false} DailyCapExactly(w: World, events: seq<Event>, cap: int)
    requires Inv(w) && Day(w.mint.height) > 0 && Yesterday(w) > 0
    requires Today(w) in Allowed(Yesterday(w), cap) && DayRun(w, events, cap)
    ensures CapHeld(w, events, Allowed(Yesterday(w), cap)) <==> FeesAlwaysFit(w, events, Allowed(Yesterday(w), cap))
    decreases |events|
  {
    if events != [] {
      var front, ok := events[..|events| - 1], Allowed(Yesterday(w), cap);
      DailyCapExactly(w, front, cap);
      if CapHeld(w, front, ok) {
        DailyCapHolds(w, front, cap);
        SupplyConservation(w, front);
        AllowedConvex(Yesterday(w), cap);
        DayStepExactly(Run(w, front), events[|events| - 1], cap, ok);
      }
    }
  }

  /** In particular swaps alone keep the cap, although it is checked before the fee and minted after it. */
  lemma {:induction false} SwapsKeepCap(w: World, events: seq<Event>, cap: int)
    requires Inv(w) && Day(w.mint.height) > 0 && Yesterday(w) > 0
    requires Today(w) in Allowed(Yesterday(w), cap) && DayRun(w, events, cap)
    requires forall i :: 0 <= i < |events| ==> !events[i].Settle?
    ensures Yesterday(Run(w, events)) == Yesterday(w)
    ensures CapHeld(w, events, Allowed(Yesterday(w), cap))
  {
    DailyCapHolds(w, events, cap);
    DailyCapExactly(w, events, cap);
    NothingToFit(w, events, Allowed(Yesterday(w), cap));
  }

  lemma {:induction false} NearWithoutSlack(ok: iset<int>, t: int)
    requires Near(ok, t, 0)
    ensures t in ok
  {
  }

  lemma {:induction false} NothingToFit(w: World, events: seq<Event>, ok: iset<int>)
    requires forall i :: 0 <= i < |events| ==> !events[i].Settle?
    ensures FeesAlwaysFit(w, events, ok)
    decreases |events|
  {
    if events != [] {
      NothingToFit(w, events[..|events| - 1], ok);
    }
  }

  /** A day on which nothing has touched Luna yet starts within every cap. */
  lemma {:induction false} FreshDayIsAllowed(w: World, cap: int)
    requires Inv(w) && Day(w.mint.height) > 0 && cap >= 0 && Yesterday(w) != 0
    requires Mint.Snap(LUNA, Day(w.mint.height)) !in w.mint.issuance
    ensures Today(w) in Allowed(Yesterday(w), cap)
  {
    assert Today(w) == Yesterday(w);
    UnchangedIsAllowed(Yesterday(w), cap);
  }
}
