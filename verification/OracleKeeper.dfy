/** The keeper, the message handlers and the end blocker of x/oracle, over the stores they update. */
module OracleKeeper {
  import opened Wrappers
  import opened Sums
  import opened Coins
  import opened Ballot
  import opened OracleTally
  import opened OracleProtocol
  import opened Epoch
  import OracleSettlement
  import Ledger
  import Mint

  lemma {:induction false} ListsMore(order: seq<Denom>, done: set<Denom>, d: Denom)
    requires Ledger.Lists(order, done) && d !in done
    ensures Ledger.Lists(order + [d], done + {d})
    ensures (order + [d])[..|order|] == order
  {
  }

  /** Claims only ever grow by bonded tokens. */
  lemma {:induction false} ClaimsStayNonNegative(claims: map<Addr, int>, vals: Validators, wins: set<Key>)
    requires NonNegative(claims)
    ensures NonNegative(ClaimsWith(claims, vals, wins))
  {
    forall r | r in ClaimsWith(claims, vals, wins)
      ensures |WonBy(wins, r)| * StakeOf(vals, r) >= 0
    {
    }
  }

  /** The books after the end of a period: the previous winners are paid, then the claims of the new ones are entered.
      */
  ghost function Closed(w: Ledger.World, round: Round, order: seq<Denom>): Ledger.World
  {
    var paid := Ledger.Settled(w, round.vals.Keys, order);
    paid.(claims := round.ClaimsAfter(paid.claims, Denoms(round.votes)))
  }

  /** The end of a period is a settlement and a tally of the ledger, so it conserves the supply. */
  lemma {:induction false} ClosingConserves(w: Ledger.World, round: Round, order: seq<Denom>)
    requires Ledger.Inv(w) && Ledger.Lists(order, w.feePool.Keys)
    ensures var paid := Ledger.Exec(w, Ledger.Settle(round.vals.Keys, order));
            Closed(w, round, order)
                == Ledger.Exec(paid, Ledger.Tally(round.ClaimsAfter(paid.claims, Denoms(round.votes))))
    ensures Ledger.Conserves(w, Closed(w, round, order))
  {
    var paid := Ledger.Exec(w, Ledger.Settle(round.vals.Keys, order));
    Ledger.ExecConserves(w, Ledger.Settle(round.vals.Keys, order));
    ClaimsStayNonNegative(paid.claims, round.vals, round.WinningVotes(Denoms(round.votes)));
    Ledger.ExecConserves(paid, Ledger.Tally(round.ClaimsAfter(paid.claims, Denoms(round.votes))));
  }

  /** The books around the oracle's own stores are those of the validators' rewards and of collected fees; all fees
      ever charged and paid out are remembered for the specification only. */
  class Keeper {
    const params: Params
    const mk: Mint.Keeper
    var prevotes: map<Key, PricePrevote>
    var votes: map<Key, PriceVote>
    var feeders: map<Addr, Addr>
    var prices: map<Denom, int>
    var claims: map<Addr, int>
    var feePool: Coins
    var rewards: Book
    var collected: Coins
    ghost var charged: Coins
    ghost var settled: Coins

    constructor (params: Params, mk: Mint.Keeper)
      ensures this.params == params && this.mk == mk
      ensures Protocol() == State(map[], map[], map[]) && prices == map[] && Valid()
      ensures Money() == Ledger.World(mk.Value(), map[], map[], map[], map[], map[], map[])
    {
      this.params, this.mk := params, mk;
      prevotes, votes, feeders, prices := map[], map[], map[], map[];
      claims, feePool, rewards, collected, charged, settled := map[], map[], map[], map[], map[], map[];
    }

    ghost predicate Valid()
      reads this
    {
      WellKeyed(votes)
    }

    ghost function Protocol(): State
      reads this
    {
      State(prevotes, votes, feeders)
    }

    ghost function Money(): Ledger.World
      reads this, mk
    {
      Ledger.World(mk.Value(), feePool, claims, rewards, collected, charged, settled)
    }

    // Handlers

    function GetFeedDelegate(operator: Addr): Addr
      reads this
    {
      if operator in feeders then feeders[operator] else operator
    }

    method Deliver(vals: Validators, msg: Msg) returns (ok: bool)
      requires params.votePeriod > 0 && Valid()
      modifies this`prevotes, this`votes, this`feeders
      ensures Valid()
      ensures ok <==> Handle(old(Protocol()), params, mk.height, vals, msg).Ok?
      ensures Protocol() == if ok then Handle(old(Protocol()), params, mk.height, vals, msg).value else old(Protocol())
    {
      match msg {
        case Prevote(hash, denom, feeder, validator) =>
          ok := HandlePricePrevote(vals, hash, denom, feeder, validator);
        case Vote(price, salt, denom, feeder, validator) =>
          ok := HandlePriceVote(vals, price, salt, denom, feeder, validator);
        case DelegateFeeder(operator, feedDelegate) =>
          ok := HandleDelegateFeederPermission(vals, operator, feedDelegate);
      }
    }

    method HandlePricePrevote(vals: Validators, hash: Hash, denom: Denom, feeder: Addr, validator: Addr)
      returns (ok: bool)
      requires params.votePeriod > 0
      modifies this`prevotes
      ensures var r := Handle(old(Protocol()), params, mk.height, vals, Prevote(hash, denom, feeder, validator));
              (ok <==> r.Ok?) && Protocol() == if ok then r.value else old(Protocol())
    {
      if feeder != validator {
        var delegate := GetFeedDelegate(validator);
        if delegate != feeder {
          return false;
        }
      }
      if validator !in vals {
        return false;
      }
      prevotes := prevotes[Key(denom, validator) := PricePrevote(hash, denom, validator, mk.height)];
      return true;
    }

    method HandlePriceVote(vals: Validators, price: int, salt: string, denom: Denom, feeder: Addr, validator: Addr)
      returns (ok: bool)
      requires params.votePeriod > 0 && Valid()
      modifies this`prevotes, this`votes
      ensures Valid()
      ensures var r := Handle(old(Protocol()), params, mk.height, vals, Vote(price, salt, denom, feeder, validator));
              (ok <==> r.Ok?) && Protocol() == if ok then r.value else old(Protocol())
    {
      if feeder != validator {
        var delegate := GetFeedDelegate(validator);
        if delegate != feeder {
          return false;
        }
      }
      if validator !in vals || Key(denom, validator) !in prevotes {
        return false;
      }
      var prevote := prevotes[Key(denom, validator)];
      PeriodIsQuotient(mk.height, params.votePeriod);
      PeriodIsQuotient(prevote.submitBlock, params.votePeriod);
      if mk.height / params.votePeriod - prevote.submitBlock / params.votePeriod != 1 {
        return false;
      }
      if prevote.hash != VoteHash(salt, price, prevote.denom, prevote.voter) {
        return false;
      }
      var key := Key(prevote.denom, prevote.voter);
      prevotes := prevotes - {key};
      votes := votes[key := PriceVote(price, prevote.denom, prevote.voter)];
      return true;
    }

    method HandleDelegateFeederPermission(vals: Validators, operator: Addr, feedDelegate: Addr) returns (ok: bool)
      requires params.votePeriod > 0
      modifies this`feeders
      ensures var r := Handle(old(Protocol()), params, mk.height, vals, DelegateFeeder(operator, feedDelegate));
              (ok <==> r.Ok?) && Protocol() == if ok then r.value else old(Protocol())
    {
      if operator !in vals {
        return false;
      }
      feeders := feeders[operator := feedDelegate];
      return true;
    }

    // Fees

    method AddSwapFeePool(d: Denom, fee: int)
      modifies this`feePool, this`charged
      ensures feePool == Plus(old(feePool), d, fee) && charged == Plus(old(charged), d, fee)
    {
      feePool := Plus(feePool, d, fee);
      charged := Plus(charged, d, fee);
    }

    /** Adds every fee coin to its issuance. A failure would panic, and never happens. */
    method IssueFees() returns (ghost order: seq<Denom>)
      requires Mint.Sound(mk.Value()) && NonNegative(feePool)
      modifies mk`issuance
      ensures Ledger.Lists(order, feePool.Keys) && mk.Value() == Ledger.ChangeInOrder(old(mk.Value()), feePool, order)
    {
      order := [];
      ghost var start := mk.Value();
      var todo := feePool.Keys;
      ghost var done: set<Denom> := {};
      while todo != {}
        invariant done !! todo && done + todo == feePool.Keys && Ledger.Lists(order, done)
        invariant mk.Value() == Ledger.ChangeInOrder(start, feePool, order)
        invariant Mint.Sound(mk.Value())
        decreases todo
      {
        var d :| d in todo;
        Ledger.FeeAlwaysFits(mk.Value(), d, feePool[d]);
        Mint.ChangeSound(mk.Value(), d, feePool[d]);
        ListsMore(order, done, d);
        var ok := mk.ChangeIssuance(d, feePool[d]);
        order := order + [d];
        todo := todo - {d};
        done := done + {d};
      }
      assert done == feePool.Keys;
    }

    /** `rewardPrevBallotWinners`. */
    method RewardPrevBallotWinners(vals: Validators) returns (ghost order: seq<Denom>)
      requires Ledger.Inv(Money())
      modifies this`claims, this`feePool, this`rewards, this`collected, this`settled, mk`issuance
      ensures Ledger.Lists(order, old(feePool).Keys) && NonNegative(claims)
      ensures Money() == Ledger.Settled(old(Money()), vals.Keys, order)
    {
      var weightSum := OracleSettlement.SumWeights(claims);
      if weightSum != 0 && feePool != map[] {
        order := DoleOut(vals.Keys, weightSum);
      } else {
        order := AnyOrder(feePool.Keys);
        if weightSum != 0 {
          claims := map[];
        }
      }
      assert Money() == Ledger.Settled(old(Money()), vals.Keys, order);
    }

    /** Everything in the fee pool goes to the winners and the fee collector, and becomes part of the issuance. */
    method DoleOut(vals: set<Addr>, weightSum: int) returns (ghost order: seq<Denom>)
      requires Mint.Sound(mk.Value()) && NonNegative(feePool) && weightSum == Total(claims) != 0
      modifies this`claims, this`feePool, this`rewards, this`collected, this`settled, mk`issuance
      ensures Ledger.Lists(order, old(feePool).Keys)
              && mk.Value() == Ledger.ChangeInOrder(old(mk.Value()), old(feePool), order)
      ensures OracleSettlement.Settled(rewards, collected)
           == OracleSettlement.Settle(old(rewards), old(collected), old(claims), vals, old(feePool))
      ensures feePool == map[] && claims == map[] && settled == AddCoins(old(settled), old(feePool))
    {
      var paid := OracleSettlement.PayOut(rewards, collected, claims, vals, feePool, weightSum);
      rewards, collected := paid.rewards, paid.collected;
      order := IssueFees();
      settled := AddCoins(settled, feePool);
      feePool := map[];
      claims := map[];
    }

    ghost function AnyOrder(denoms: set<Denom>): (order: seq<Denom>)
      ensures Ledger.Lists(order, denoms)
      decreases denoms
    {
      if denoms == {} then []
      else
        var d :| d in denoms;
        AnyOrder(denoms - {d}) + [d]
    }

    // The end of a block

    method DropExpiredPrevotes()
      modifies this`prevotes
      ensures prevotes == Surviving(old(prevotes), params.votePeriod, mk.height)
    {
      ghost var start := prevotes;
      var todo := prevotes.Keys;
      while todo != {}
        invariant todo <= start.Keys
        invariant prevotes == map k | k in start
                  && (k in todo || !(mk.height > start[k].submitBlock + params.votePeriod)) :: start[k]
        decreases todo
      {
        var k :| k in todo;
        if mk.height > prevotes[k].submitBlock + params.votePeriod {
          prevotes := prevotes - {k};
        }
        todo := todo - {k};
      }
    }

    method ClearVotes()
      modifies this`votes
      ensures votes == map[]
    {
      while votes != map[]
        decreases votes.Keys
      {
        var k :| k in votes;
        votes := votes - {k};
      }
    }

    /** `EndBlocker`: the winners of the previous ballot are paid, the ballot is tallied into new prices and claims,
        and the stores are cleared for the next period. */
    method EndBlocker(vals: Validators, bonded: int) returns (ghost order: seq<Denom>)
      requires params.votePeriod > 0 && Valid() && Ledger.Inv(Money())
      modifies this, mk`issuance
      ensures Valid() && Protocol() == EndBlock(old(Protocol()), params, mk.height)
      ensures Ledger.Lists(order, old(feePool).Keys)
      ensures var round := Round(params, vals, bonded, old(votes));
              var last := IsPeriodLastBlock(mk.height, params.votePeriod);
              && prices == (if last then round.PricesAfter(Denoms(old(votes))) else old(prices))
              && Money() == if last then Closed(old(Money()), round, order) else old(Money())
    {
      if IsPeriodLastBlock(mk.height, params.votePeriod) {
        order := ClosePeriod(vals, bonded);
      } else {
        order := AnyOrder(feePool.Keys);
      }
    }

    method ClosePeriod(vals: Validators, bonded: int) returns (ghost order: seq<Denom>)
      requires Valid() && Ledger.Inv(Money())
      modifies this, mk`issuance
      ensures Ledger.Lists(order, old(feePool).Keys)
      ensures prices == Round(params, vals, bonded, old(votes)).PricesAfter(Denoms(old(votes)))
      ensures Money() == Closed(old(Money()), Round(params, vals, bonded, old(votes)), order)
      ensures Protocol() == State(Surviving(old(prevotes), params.votePeriod, mk.height), map[], old(feeders))
    {
      order := RewardPrevBallotWinners(vals);
      ghost var paid := Money();
      TallyAndClear(vals, bonded);
      assert Money() == paid.(claims := claims);
    }

    /** New prices replace the old ones, new claims join the claim pool, and votes and expired prevotes are dropped. */
    method TallyAndClear(vals: Validators, bonded: int)
      requires Valid()
      modifies this`prices, this`claims, this`prevotes, this`votes
      ensures var round := Round(params, vals, bonded, old(votes));
              && prices == round.PricesAfter(Denoms(old(votes)))
              && claims == round.ClaimsAfter(old(claims), Denoms(old(votes)))
      ensures prevotes == Surviving(old(prevotes), params.votePeriod, mk.height) && votes == map[]
    {
      prices, claims := TallyAll(Round(params, vals, bonded, votes), claims);
      DropExpiredPrevotes();
      ClearVotes();
    }
  }
}
