/** Runs of x/oracle from the first commitment to the stored prices: the protocol of messages and the tally together. */
module OracleRuns {
  import opened Coins
  import opened Ballot
  import opened OracleTally
  import opened OracleProtocol
  import opened Epoch

  /** The chain with its prices, and, to state the law, the validators and bonded tokens at the last tally. */
  datatype World = World(chain: Chain, prices: map<Denom, int>, vals: Validators, bonded: int)

  /** The end of a block brings along the validator set it is executed under. */
  datatype Step = Message(vals: Validators, msg: Msg) | BlockEnd(vals: Validators, bonded: int)

  /** The prices that replace the old ones when the votes are tallied. */
  ghost function Tallied(params: Params, vals: Validators, bonded: int, votes: map<Key, PriceVote>): map<Denom, int>
  {
    Round(params, vals, bonded, votes).PricesAfter(Denoms(votes))
  }

  ghost function ExecStep(w: World, params: Params, s: Step): World
    requires params.votePeriod > 0
  {
    match s
    case Message(vals, msg) => w.(chain := Exec(w.chain, params, Deliver(vals, msg)))
    case BlockEnd(vals, bonded) =>
      var chain := Exec(w.chain, params, NextBlock);
      if !IsPeriodLastBlock(w.chain.height, params.votePeriod) then w.(chain := chain)
      else World(chain, Tallied(params, vals, bonded, w.chain.state.votes), vals, bonded)
  }

  ghost function RunSteps(w: World, params: Params, steps: seq<Step>): World
    requires params.votePeriod > 0
  {
    if steps == [] then w
    else ExecStep(RunSteps(w, params, steps[..|steps| - 1]), params, steps[|steps| - 1])
  }

  ghost predicate Fresh(w: World) { Genesis(w.chain) && w.prices == map[] }

  // ---------------------------------------------------------------------------
  // The votes of a period, straight from the log

  /** The reveals of period `q`, as votes. */
  function RevealedVotes(log: seq<Entry>, q: int): map<Key, PriceVote>
  {
    if log == [] then map[]
    else
      var front, e := RevealedVotes(log[..|log| - 1], q), log[|log| - 1];
      if e.Revealed? && e.period == q then front[e.key := PriceVote(e.price, e.key.denom, e.key.voter)] else front
  }

  /** A vote counted for a period was revealed in it, with its price. */
  lemma {:induction false} VoteWasRevealed(log: seq<Entry>, q: nat, k: Key) returns (j: int)
    requires k in RevealedVotes(log, q)
    ensures RevealIn(log, q, j) && log[j].key == k
    ensures RevealedVotes(log, q)[k] == PriceVote(log[j].price, k.denom, k.voter)
    decreases |log|
  {
    var n := |log| - 1;
    var e := log[n];
    if e.Revealed? && e.period == q && e.key == k {
      j := n;
    } else {
      j := VoteWasRevealed(log[..n], q, k);
    }
  }

  lemma {:induction false} RevealWasCounted(log: seq<Entry>, q: nat, j: int)
    requires RevealIn(log, q, j)
    ensures log[j].key in RevealedVotes(log, q)
    decreases |log|
  {
    var n := |log| - 1;
    if j < n {
      RevealWasCounted(log[..n], q, j);
    }
  }

  /** The votes in the store are those of the current period. */
  lemma {:induction false} StoredVotesAreRevealed(votes: map<Key, PriceVote>, log: seq<Entry>, q: nat)
    requires VotesAreRevealsOf(votes, log, q)
    ensures votes == RevealedVotes(log, q)
  {
    var revealed := RevealedVotes(log, q);
    forall k | k in votes
      ensures k in revealed
    {
      var j :| RevealIn(log, q, j) && log[j].key == k;
      RevealWasCounted(log, q, j);
    }
    forall k | k in revealed
      ensures k in votes && votes[k] == revealed[k]
    {
      var j := VoteWasRevealed(log, q, k);
    }
  }

  /** Entries of other periods change nothing. */
  lemma {:induction false} LaterEntries(log: seq<Entry>, more: seq<Entry>, q: int)
    requires forall i :: 0 <= i < |more| ==> more[i].period != q
    ensures RevealedVotes(log + more, q) == RevealedVotes(log, q)
    decreases |more|
  {
    if more == [] {
      assert log + more == log;
    } else {
      assert (log + more)[..|log + more| - 1] == log + more[..|more| - 1];
      LaterEntries(log, more[..|more| - 1], q);
    }
  }

  lemma {:induction false} NothingRevealed(log: seq<Entry>, q: int)
    requires log == []
    ensures RevealedVotes(log, q) == map[]
  {
  }

  // ---------------------------------------------------------------------------
  // Prices over every run

  /** The prices are what the reveals of the period before make of them. */
  ghost predicate PricesFollow(w: World, params: Params)
    requires params.votePeriod > 0
  {
    w.prices == Tallied(params, w.vals, w.bonded, RevealedVotes(w.chain.log, Now(w.chain, params) - 1))
  }

  lemma {:induction false} NoVotesNoPrices(params: Params, vals: Validators, bonded: int)
    ensures Tallied(params, vals, bonded, map[]) == map[]
  {
    assert Denoms(map[]) == {};
  }

  lemma {:induction false} MessageKeepsPrices(w: World, params: Params, vals: Validators, msg: Msg)
    requires params.votePeriod > 0 && PricesFollow(w, params)
    ensures PricesFollow(ExecStep(w, params, Message(vals, msg)), params)
  {
    var next := ExecStep(w, params, Message(vals, msg));
    if Handle(w.chain.state, params, w.chain.height, vals, msg).Ok? {
      var q := Now(w.chain, params) - 1;
      LaterEntries(w.chain.log, LogOf(Now(w.chain, params), msg), q);
      TalliedFollow(next, params, RevealedVotes(w.chain.log, q), q);
    } else {
      assert next == w;
    }
  }

  lemma {:induction false} TalliedFollow(w: World, params: Params, votes: map<Key, PriceVote>, q: int)
    requires params.votePeriod > 0 && q == Now(w.chain, params) - 1
    requires votes == RevealedVotes(w.chain.log, q) && w.prices == Tallied(params, w.vals, w.bonded, votes)
    ensures PricesFollow(w, params)
  {
  }

  lemma {:induction false} BlockEndKeepsPrices(w: World, params: Params, vals: Validators, bonded: int)
    requires params.votePeriod > 0 && PricesFollow(w, params) && Inv(w.chain, params)
    ensures PricesFollow(ExecStep(w, params, BlockEnd(vals, bonded)), params)
  {
    LastBlockOpensNextPeriod(w.chain.height, params.votePeriod);
    var next := ExecStep(w, params, BlockEnd(vals, bonded));
    if IsPeriodLastBlock(w.chain.height, params.votePeriod) {
      StoredVotesAreRevealed(w.chain.state.votes, w.chain.log, Now(w.chain, params));
      TalliedFollow(next, params, w.chain.state.votes, Now(w.chain, params));
    } else {
      TalliedFollow(next, params, RevealedVotes(w.chain.log, Now(w.chain, params) - 1), Now(w.chain, params) - 1);
    }
  }

  lemma {:induction false} RunKeepsPrices(w: World, params: Params, steps: seq<Step>)
    requires params.votePeriod > 0 && Inv(w.chain, params) && PricesFollow(w, params)
    ensures Inv(RunSteps(w, params, steps).chain, params) && PricesFollow(RunSteps(w, params, steps), params)
    decreases |steps|
  {
    if steps != [] {
      var front, s := steps[..|steps| - 1], steps[|steps| - 1];
      RunKeepsPrices(w, params, front);
      var now := RunSteps(w, params, front);
      match s
      case Message(vals, msg) =>
        ExecKeepsInv(now.chain, params, Deliver(vals, msg));
        MessageKeepsPrices(now, params, vals, msg);
      case BlockEnd(vals, bonded) =>
        ExecKeepsInv(now.chain, params, NextBlock);
        BlockEndKeepsPrices(now, params, vals, bonded);
    }
  }

  lemma {:induction false} FreshPrices(w: World, params: Params)
    requires params.votePeriod > 0 && Fresh(w)
    ensures Inv(w.chain, params) && PricesFollow(w, params)
  {
    NothingRevealed(w.chain.log, Now(w.chain, params) - 1);
    NoVotesNoPrices(params, w.vals, w.bonded);
  }

  /** At every moment of every run from genesis: a price is stored for exactly the denominations whose reveals of the
      period before passed the threshold, and it is the weighted median of those reveals. */
  lemma {:induction false} PricesAreMediansOfReveals(w: World, params: Params, steps: seq<Step>, d: Denom)
    requires params.votePeriod > 0 && Fresh(w)
    ensures var now := RunSteps(w, params, steps);
            var round := Round(params, now.vals, now.bonded, RevealedVotes(now.chain.log, Now(now.chain, params) - 1));
            && (d in now.prices <==> d in Denoms(round.votes) && round.Passes(d))
            && (d in now.prices ==> IsWeightedMedian(round.Votes(d), now.vals, now.prices[d]))
  {
    FreshPrices(w, params);
    RunKeepsPrices(w, params, steps);
  }

  /** The vote of `k` in period `q` is the reveal `j` of the commitment `i`, which could not have been opened to any
      other price. */
  ghost predicate Counted(log: seq<Entry>, q: nat, k: Key, i: int, j: int)
  {
    && k in RevealedVotes(log, q)
    && Opens(log, i, j) && log[j].key == k && log[j].period == q
    && RevealedVotes(log, q)[k] == PriceVote(log[j].price, k.denom, k.voter)
    && forall salt, price :: VoteHash(salt, price, k.denom, k.voter) == log[i].hash ==> price == log[j].price
  }

  lemma {:induction false} RevealedWasCommitted(log: seq<Entry>, q: nat, k: Key) returns (i: int, j: int)
    requires RevealsWereCommitted(log) && k in RevealedVotes(log, q)
    ensures Counted(log, q, k, i, j)
  {
    j := VoteWasRevealed(log, q, k);
    i :| Opens(log, i, j);
    forall salt, price | VoteHash(salt, price, k.denom, k.voter) == log[i].hash
      ensures price == log[j].price
    {
      CommitmentBinds(salt, price, log[j].salt, log[j].price, k.denom, k.voter);
    }
  }

  /** And every vote that counted towards it opens a commitment that was accepted yet one period earlier, to a price
      that could not have been revealed differently. */
  lemma {:induction false} CountedVotesWereCommitted(w: World, params: Params, steps: seq<Step>, q: nat, k: Key)
    returns (i: int, j: int)
    requires params.votePeriod > 0 && Fresh(w) && q + 1 == Now(RunSteps(w, params, steps).chain, params)
    requires k in RevealedVotes(RunSteps(w, params, steps).chain.log, q)
    ensures Counted(RunSteps(w, params, steps).chain.log, q, k, i, j)
  {
    FreshPrices(w, params);
    RunKeepsPrices(w, params, steps);
    i, j := RevealedWasCommitted(RunSteps(w, params, steps).chain.log, q, k);
  }
}
