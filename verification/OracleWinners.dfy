/** Who wins a ballot of x/oracle and what it earns, in terms of prices, bonded tokens and stored votes alone. */
module OracleWinners {
  import opened Sums
  import opened Coins
  import opened Ballot
  import opened OracleTally
  import opened OracleSettlement
  import Dec

  /** The validators that win are those whose vote on a ballot that passed lies at most half of the reward band from
      the median. */
  lemma {:induction false} WinnersExactly(round: Round, d: Denom, r: Addr)
    requires round.params.rewardBand >= 0
    ensures r in round.Winners(d)
       <==> (round.Passes(d) && r in round.vals && Key(d, r) in round.votes
             && 2 * Dec.Abs(round.votes[Key(d, r)].price - round.Price(d)) <= round.params.rewardBand)
  {
  }

  /** Bonded tokens of the validators that voted on a denomination, among the given votes. */
  function Voters(votes: map<Key, PriceVote>, vals: Validators, keys: set<Key>, d: Denom): map<Addr, int>
  {
    map r | r in vals && Key(d, r) in keys && Key(d, r) in votes :: vals[r]
  }

  lemma {:induction false} VotersStep(votes: map<Key, PriceVote>, vals: Validators, keys: set<Key>, k: Key, d: Denom)
    requires WellKeyed(votes) && k in votes && k !in keys
    ensures Total(Voters(votes, vals, keys + {k}, d))
         == Total(Voters(votes, vals, keys, d)) + (if k.denom == d then Stake(votes[k], vals, Any) else 0)
  {
    var before, after := Voters(votes, vals, keys, d), Voters(votes, vals, keys + {k}, d);
    if k.denom == d && k.voter in vals {
      assert k == Key(d, k.voter);
      assert after == before[k.voter := vals[k.voter]] && k.voter !in before;
      TotalUpdate(before, k.voter, vals[k.voter]);
    } else {
      assert after == before;
    }
  }

  /** The power of a ballot is the bonded tokens of all validators that voted on it. */
  lemma {:induction false} PowerOfVoters(votes: map<Key, PriceVote>, vals: Validators, keys: set<Key>, d: Denom)
    requires WellKeyed(votes) && keys <= votes.Keys
    ensures Power(multiset(BallotIn(votes, keys, d)), vals, Any) == Total(Voters(votes, vals, keys, d))
    decreases keys
  {
    if keys == {} {
      assert BallotIn(votes, keys, d) == {} && Voters(votes, vals, keys, d) == map[];
    } else {
      var k :| k in keys;
      var rest := keys - {k};
      assert rest + {k} == keys;
      PowerOfVoters(votes, vals, rest, d);
      VotersStep(votes, vals, rest, k, d);
      BallotStep(votes, rest, k, d);
      var ballot := multiset(BallotIn(votes, rest, d));
      if k.denom == d {
        PowerInsert(ballot, vals, Any, votes[k]);
      } else {
        assert ballot + multiset{} == ballot;
      }
    }
  }

  /** A ballot passes exactly when the validators that voted on it bond the threshold's part of all bonded tokens,
      rounded to the nearest integer `least`, half to even. */
  lemma {:induction false} PassesExactly(round: Round, d: Denom, least: int)
    requires WellKeyed(round.votes)
    requires Dec.NearestEven(round.params.voteThreshold * round.bonded, least)
    ensures round.Passes(d) <==> Total(Voters(round.votes, round.vals, round.votes.Keys, d)) >= least
  {
    PowerOfVoters(round.votes, round.vals, round.votes.Keys, d);
    Dec.ChopUnique(round.params.voteThreshold * round.bonded, least);
  }

  ghost function WonDenoms(round: Round, denoms: set<Denom>, r: Addr): set<Denom>
  {
    set d | d in denoms && r in round.Winners(d)
  }

  lemma {:induction false} KeysOfDenoms(denoms: set<Denom>, r: Addr)
    ensures |set d | d in denoms :: Key(d, r)| == |denoms|
    decreases denoms
  {
    if denoms == {} {
      assert (set d | d in denoms :: Key(d, r)) == {};
    } else {
      var d :| d in denoms;
      KeysOfDenoms(denoms - {d}, r);
      assert (set e | e in denoms :: Key(e, r)) == (set e | e in denoms - {d} :: Key(e, r)) + {Key(d, r)};
    }
  }

  /** A tally adds to each claim the bonded tokens of the validator, once for every denomination it won; nobody else
      gets an entry. */
  lemma {:induction false} ClaimsGrowByWins(round: Round, claims: map<Addr, int>, denoms: set<Denom>, r: Addr)
    ensures var after, won := round.ClaimsAfter(claims, denoms), WonDenoms(round, denoms, r);
            && (r in after <==> r in claims || won != {})
            && (won != {} ==> r in round.vals)
            && Get(after, r) == Get(claims, r) + if r in round.vals then |won| * round.vals[r] else 0
  {
    var wins, won := round.WinningVotes(denoms), WonDenoms(round, denoms, r);
    forall k | k in WonBy(wins, r)
      ensures k.denom in won && k == Key(k.denom, r)
    {
    }
    forall d | d in won
      ensures Key(d, r) in WonBy(wins, r)
    {
    }
    assert WonBy(wins, r) == set d | d in won :: Key(d, r);
    KeysOfDenoms(won, r);
    ClaimOfNobody(claims, round.vals, wins, r);
    assert r in round.ClaimsAfter(claims, denoms) <==> r in claims || WonBy(wins, r) != {} by {
      assert forall k :: k in wins && k.voter == r <==> k in WonBy(wins, r);
    }
  }

  // ---------------------------------------------------------------------------
  // Settlement

  /** A share is the part of the fee that its weight has in all weights: never more, and less by under one coin and
      under `weight / 10^18` of another. */
  lemma {:induction false} ShareIsProportional(fee: nat, weightSum: nat, weight: nat)
    requires weightSum > 0
    ensures var share := Share(fee, weightSum, weight);
            && share >= 0 && share * weightSum <= fee * weight
            && fee * weight * Dec.ONE < (share + 1) * weightSum * Dec.ONE + weightSum * weight
  {
    ShareBounds(fee, weightSum, weight);
    TwoRoundings(fee, weightSum, weight, UnitValue(fee, weightSum), Share(fee, weightSum, weight));
  }

  lemma {:induction false} TwoRoundings(fee: nat, sum: nat, weight: nat, q: nat, share: nat)
    requires sum > 0 && q * sum <= fee * Dec.ONE < q * sum + sum
    requires share * Dec.ONE <= q * weight < share * Dec.ONE + Dec.ONE
    ensures share * sum <= fee * weight
    ensures fee * weight * Dec.ONE < (share + 1) * sum * Dec.ONE + sum * weight
  {
    Dec.TimesMonotone(q * sum, fee * Dec.ONE, weight);
    Dec.TimesMonotone(fee * Dec.ONE, q * sum + sum, weight);
    Dec.TimesMonotone(share * Dec.ONE, q * weight, sum);
    Dec.TimesMonotone(q * weight + 1, share * Dec.ONE + Dec.ONE, sum);
    Regrouped(fee, sum, weight, q, share);
  }

  lemma {:induction false} Regrouped(fee: int, sum: int, weight: int, q: int, share: int)
    ensures q * sum * weight == q * weight * sum && fee * Dec.ONE * weight == fee * weight * Dec.ONE
    ensures (q * sum + sum) * weight == q * weight * sum + sum * weight
    ensures share * Dec.ONE * sum == share * sum * Dec.ONE
    ensures (share * Dec.ONE + Dec.ONE) * sum == (share + 1) * sum * Dec.ONE
    ensures (q * weight + 1) * sum == q * weight * sum + sum
  {
  }

  /** Each claimant that is a validator is credited its own share of each fee, and nobody else anything. */
  lemma {:induction false} EachIsPaidItsShare(rewards: Book, collected: Coins, claims: map<Addr, int>, vals: set<Addr>,
          pool: Coins, r: Addr, d: Denom)
    requires Total(claims) != 0
    ensures Get(Row(Settle(rewards, collected, claims, vals, pool).rewards, r), d) - Get(Row(rewards, r), d)
         == if r in claims && r in vals then Share(Get(pool, d), Total(claims), claims[r]) else 0
  {
    if r in claims && r in vals {
      AddCoinsGet(Row(rewards, r), Shares(pool, Total(claims), claims[r]), d);
      assert d !in pool ==> Share(0, Total(claims), claims[r]) == 0;
    }
  }
}
