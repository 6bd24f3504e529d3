/** The keeper of x/budget: the handlers and the loops of the end blocker, proved against the state machine. */
module BudgetKeeper {
  import opened Wrappers
  import opened Sums
  import opened Coins
  import opened Epoch
  import opened BudgetKeys
  import opened Budget
  import opened BudgetPayout
  import OracleSettlement
  import Dec
  import Ledger
  import Market
  import Mint
  import Treasury
  import TreasuryKeeper

  // ---------------------------------------------------------------------------
  // Tally of one program

  function LeaningsIn(votes: map<VoteKey, bool>, vals: Validators, id: nat, keys: set<VoteKey>): map<Addr, int>
  {
    map v | v in vals && VoteKey(id, v) in votes && VoteKey(id, v) in keys :: Leaning(votes[VoteKey(id, v)], vals[v])
  }

  /** The votes left once those of former validators have been removed from the keys visited. */
  function Purged(votes: map<VoteKey, bool>, vals: Validators, keys: set<VoteKey>): map<VoteKey, bool>
  {
    map k | k in votes && (k in keys ==> k.voter in vals) :: votes[k]
  }

  function KeysOf(votes: map<VoteKey, bool>, id: nat): set<VoteKey>
  {
    set k | k in votes && k.id == id
  }

  lemma {:induction false} TallyStep(votes: map<VoteKey, bool>, vals: Validators, id: nat, keys: set<VoteKey>,
          k: VoteKey)
    requires k in votes && k.id == id && k !in keys
    ensures Total(LeaningsIn(votes, vals, id, keys + {k}))
         == Total(LeaningsIn(votes, vals, id, keys)) + (if k.voter in vals then Leaning(votes[k], vals[k.voter]) else 0)
    ensures Purged(votes, vals, keys + {k}) == if k.voter in vals then Purged(votes, vals, keys)
            else Purged(votes, vals, keys) - {k}
  {
    var before, after := LeaningsIn(votes, vals, id, keys), LeaningsIn(votes, vals, id, keys + {k});
    assert k == VoteKey(id, k.voter);
    if k.voter in vals {
      assert after == before[k.voter := Leaning(votes[k], vals[k.voter])] && k.voter !in before;
      TotalUpdate(before, k.voter, Leaning(votes[k], vals[k.voter]));
    } else {
      assert after == before;
    }
  }

  /** `tally`: yes votes less no votes in bonded tokens; votes of former validators are deleted on the way. */
  method Tally(votes: map<VoteKey, bool>, vals: Validators, id: nat) returns (power: int, votes': map<VoteKey, bool>)
    ensures power == VotePower(votes, vals, id)
    ensures votes' == Purged(votes, vals, KeysOf(votes, id))
  {
    power, votes' := 0, votes;
    var todo := KeysOf(votes, id);
    ghost var done: set<VoteKey> := {};
    assert LeaningsIn(votes, vals, id, {}) == map[];
    while todo != {}
      invariant done + todo == KeysOf(votes, id) && done !! todo
      invariant power == Total(LeaningsIn(votes, vals, id, done))
      invariant votes' == Purged(votes, vals, done)
      decreases todo
    {
      var k :| k in todo;
      TallyStep(votes, vals, id, done, k);
      MoveOne(KeysOf(votes, id), done, todo, k);
      if k.voter in vals {
        power := power + Leaning(votes[k], vals[k.voter]);
      } else {
        votes' := votes' - {k};
      }
      todo := todo - {k};
      done := done + {k};
    }
    assert done == KeysOf(votes, id);
    AllLeanings(votes, vals, id);
  }

  lemma {:induction false} AllLeanings(votes: map<VoteKey, bool>, vals: Validators, id: nat)
    ensures LeaningsIn(votes, vals, id, KeysOf(votes, id)) == Leanings(votes, vals, id)
  {
  }

  // ---------------------------------------------------------------------------
  // Deciding programs one by one

  lemma {:induction false} DropStep(s: State, vals: Validators, ids: set<nat>, failing: set<nat>, id: nat,
          more: set<nat>)
    requires id !in ids && id in s.programs && failing <= ids && more <= {id}
    ensures Drop(s, vals, ids + {id}, failing + more) == Drop(Drop(s, vals, ids, failing), vals, {id}, more)
  {
    assert s.programs - (failing + more) == s.programs - failing - more;
  }

  lemma {:induction false} OtherVotesUntouched(s: State, vals: Validators, ids: set<nat>, failing: set<nat>, id: nat)
    requires id !in ids
    ensures VotePower(Drop(s, vals, ids, failing).votes, vals, id) == VotePower(s.votes, vals, id)
  {
    assert Leanings(Drop(s, vals, ids, failing).votes, vals, id) == Leanings(s.votes, vals, id);
  }

  ghost function FailingOne(power: int, bonded: int, threshold: int, id: nat): set<nat>
  {
    if ClearsThreshold(power, bonded, threshold) then {} else {id}
  }

  lemma {:induction false} FailingStep(s: State, vals: Validators, bonded: int, threshold: int, ids: set<nat>, id: nat)
    requires id !in ids && id in s.programs
    ensures Failing(s, vals, bonded, threshold, ids + {id})
         == Failing(s, vals, bonded, threshold, ids) + FailingOne(VotePower(s.votes, vals, id), bonded, threshold, id)
    ensures Failing(s, vals, bonded, threshold, {id}) == FailingOne(VotePower(s.votes, vals, id), bonded, threshold, id)
  {
  }

  /** Programs can be decided in any order. */
  lemma {:induction false} DecideStep(s: State, vals: Validators, bonded: int, threshold: int, ids: set<nat>, id: nat)
    requires id !in ids && id in s.programs
    ensures Decide(s, vals, bonded, threshold, ids + {id})
         == Decide(Decide(s, vals, bonded, threshold, ids), vals, bonded, threshold, {id})
    ensures VotePower(Decide(s, vals, bonded, threshold, ids).votes, vals, id) == VotePower(s.votes, vals, id)
  {
    var failing := Failing(s, vals, bonded, threshold, ids);
    var mid := Drop(s, vals, ids, failing);
    OtherVotesUntouched(s, vals, ids, failing, id);
    FailingStep(s, vals, bonded, threshold, ids, id);
    FailingStep(mid, vals, bonded, threshold, {}, id);
    DropStep(s, vals, ids, failing, id, FailingOne(VotePower(s.votes, vals, id), bonded, threshold, id));
  }

  lemma {:induction false} DecideNothing(s: State, vals: Validators, bonded: int, threshold: int)
    ensures Decide(s, vals, bonded, threshold, {}) == s && Failing(s, vals, bonded, threshold, {}) == {}
  {
    assert Failing(s, vals, bonded, threshold, {}) == {};
    DropNothing(s, vals);
  }

  lemma {:induction false} DropNothing(s: State, vals: Validators)
    ensures Drop(s, vals, {}, {}) == s
  {
    assert s.programs - {} == s.programs;
  }

  /** Tallies one stored program and deletes it with its votes if it does not clear the threshold. */
  method DecideOne(s: State, vals: Validators, bonded: int, threshold: int, id: nat)
    returns (s': State, power: int, clears: bool)
    requires id in s.programs
    ensures s' == Decide(s, vals, bonded, threshold, {id})
    ensures power == VotePower(s.votes, vals, id) && clears == ClearsThreshold(power, bonded, threshold)
  {
    var votes;
    power, votes := Tally(s.votes, vals, id);
    clears := ClearsThreshold(power, bonded, threshold);
    assert Failing(s, vals, bonded, threshold, {id}) == if clears then {} else {id};
    if clears {
      s' := s.(votes := votes);
      assert s.programs - {} == s.programs;
    } else {
      s' := s.(votes := WithoutVotesFor(votes, {id}), programs := s.programs - {id});
    }
    assert s'.votes == Decide(s, vals, bonded, threshold, {id}).votes;
  }

  /** The state once the programs in `done` have left the queue decided. */
  ghost function VotingEnded(s: State, params: Params, vals: Validators, bonded: int, done: set<nat>): State
    requires done <= s.programs.Keys
  {
    Decide(s, vals, bonded, params.activeThreshold, done).(queue := Remaining(s.queue, s.programs, params, done))
  }

  function Remaining(queue: set<Candidate>, programs: map<nat, Program>, params: Params, done: set<nat>): set<Candidate>
    requires done <= programs.Keys
  {
    set c | c in queue && !(c.id in done && c.endBlock == VotingEndBlock(programs[c.id], params))
  }

  lemma {:induction false} RemainingStep(queue: set<Candidate>, programs: map<nat, Program>, params: Params,
          done: set<nat>, id: nat)
    requires done <= programs.Keys && id in programs
    ensures Remaining(queue, programs, params, done + {id})
         == Remaining(queue, programs, params, done) - {Candidate(VotingEndBlock(programs[id], params), id)}
  {
  }

  lemma {:induction false} VotingEndedStep(s: State, params: Params, vals: Validators, bonded: int, done: set<nat>,
          id: nat)
    requires done <= s.programs.Keys && id in s.programs && id !in done
    ensures var mid := VotingEnded(s, params, vals, bonded, done);
            && id in mid.programs && mid.programs[id] == s.programs[id]
            && VotingEnded(s, params, vals, bonded, done + {id})
            == Decide(mid, vals, bonded, params.activeThreshold, {id})
                 .(queue := mid.queue - {Candidate(VotingEndBlock(s.programs[id], params), id)})
  {
    DecideStep(s, vals, bonded, params.activeThreshold, done, id);
    RemainingStep(s.queue, s.programs, params, done, id);
    var decided := Decide(s, vals, bonded, params.activeThreshold, done);
    SameDecision(decided, Remaining(s.queue, s.programs, params, done), vals, bonded, params.activeThreshold, id);
  }

  /** A decision does not look at the queue. */
  lemma {:induction false} SameDecision(s: State, queue: set<Candidate>, vals: Validators, bonded: int, threshold: int,
          id: nat)
    ensures Decide(s.(queue := queue), vals, bonded, threshold, {id})
            == Decide(s, vals, bonded, threshold, {id}).(queue := queue)
  {
    assert Failing(s.(queue := queue), vals, bonded, threshold, {id}) == Failing(s, vals, bonded, threshold, {id});
  }

  /** The first part of the end blocker: a pass over the expired queue entries, skipping those whose program is
      not stored. */
  method EndVotingPass(s: State, params: Params, vals: Validators, bonded: int) returns (s': State)
    ensures s' == EndVoting(s, params, vals, bonded)
  {
    s' := s;
    var todo := Ids(Due(s, s.mint.height));
    ghost var done: set<nat> := {};
    NoVotingEnded(s, params, vals, bonded);
    while todo != {}
      invariant done <= s.programs.Keys && done !! todo
      invariant (done + todo) * s.programs.Keys == Ids(Due(s, s.mint.height)) * s.programs.Keys
      invariant s' == VotingEnded(s, params, vals, bonded, done)
      decreases todo
    {
      var id :| id in todo;
      StoredUntilDecided(s, params, vals, bonded, done, id);
      if id in s'.programs {
        VotingEndedStep(s, params, vals, bonded, done, id);
        var endBlock := VotingEndBlock(s'.programs[id], params);
        var decided, _, _ := DecideOne(s', vals, bonded, params.activeThreshold, id);
        s' := decided.(queue := decided.queue - {Candidate(endBlock, id)});
        done := done + {id};
      }
      todo := todo - {id};
    }
    assert done == Ids(Due(s, s.mint.height)) * s.programs.Keys;
  }

  lemma {:induction false} NoVotingEnded(s: State, params: Params, vals: Validators, bonded: int)
    ensures VotingEnded(s, params, vals, bonded, {}) == s
  {
    DecideNothing(s, vals, bonded, params.activeThreshold);
  }

  lemma {:induction false} StoredUntilDecided(s: State, params: Params, vals: Validators, bonded: int, done: set<nat>,
          id: nat)
    requires done <= s.programs.Keys && id !in done
    ensures id in VotingEnded(s, params, vals, bonded, done).programs <==> id in s.programs
  {
  }

  // ---------------------------------------------------------------------------
  // Weighing active programs

  ghost function Weighed(s: State, params: Params, vals: Validators, bonded: int, done: set<nat>): State
  {
    Decide(s, vals, bonded, params.legacyThreshold, done)
      .(claims := Granted(s.claims, s.programs, Powers(s, vals),
          done - Failing(s, vals, bonded, params.legacyThreshold, done)))
  }

  lemma {:induction false} GrantToStep(programs: map<nat, Program>, powers: map<nat, int>, granted: set<nat>, id: nat,
          x: Addr)
    requires id in programs && id !in granted
    ensures Total(GrantTo(programs, powers, granted + {id}, x))
         == Total(GrantTo(programs, powers, granted, x)) + (if x == programs[id].executor then Get(powers, id) else 0)
  {
    var before, after := GrantTo(programs, powers, granted, x), GrantTo(programs, powers, granted + {id}, x);
    if x == programs[id].executor {
      assert after == before[id := Get(powers, id)];
      TotalUpdate(before, id, Get(powers, id));
    } else {
      assert after == before;
    }
  }

  lemma {:induction false} GrantedOf(claims: map<Addr, int>, programs: map<nat, Program>, powers: map<nat, int>,
          granted: set<nat>, r: Addr)
    ensures Get(Granted(claims, programs, powers, granted), r)
            == Get(claims, r) + Total(GrantTo(programs, powers, granted, r))
  {
    if forall id :: id in granted && id in programs ==> programs[id].executor != r {
      assert GrantTo(programs, powers, granted, r) == map[];
    }
  }

  lemma {:induction false} GrantedIn(claims: map<Addr, int>, programs: map<nat, Program>, powers: map<nat, int>,
          granted: set<nat>, r: Addr)
    ensures r in Granted(claims, programs, powers, granted)
       <==> r in claims || exists id :: id in granted && id in programs && programs[id].executor == r
  {
  }

  lemma {:induction false} GrantedStep(claims: map<Addr, int>, programs: map<nat, Program>, powers: map<nat, int>,
          granted: set<nat>, id: nat)
    requires id in programs && id !in granted
    ensures Granted(claims, programs, powers, granted + {id})
         == Plus(Granted(claims, programs, powers, granted), programs[id].executor, Get(powers, id))
  {
    var before, after := Granted(claims, programs, powers, granted), Granted(claims, programs, powers, granted + {id});
    var plus := Plus(before, programs[id].executor, Get(powers, id));
    forall r
      ensures (r in after <==> r in plus) && Get(after, r) == Get(plus, r)
    {
      GrantedKey(claims, programs, powers, granted, id, r);
      GrantToStep(programs, powers, granted, id, r);
      GrantedOf(claims, programs, powers, granted, r);
      GrantedOf(claims, programs, powers, granted + {id}, r);
    }
    SameMap(after, plus);
  }

  lemma {:induction false} GrantedKey(claims: map<Addr, int>, programs: map<nat, Program>, powers: map<nat, int>,
          granted: set<nat>, id: nat, r: Addr)
    requires id in programs
    ensures r in Granted(claims, programs, powers, granted + {id})
       <==> r in Granted(claims, programs, powers, granted) || r == programs[id].executor
  {
    GrantedIn(claims, programs, powers, granted, r);
    GrantedIn(claims, programs, powers, granted + {id}, r);
  }

  lemma {:induction false} WeighedStep(s: State, params: Params, vals: Validators, bonded: int, done: set<nat>, id: nat)
    requires id in s.programs && id !in done
    ensures var mid := Weighed(s, params, vals, bonded, done);
            var power := VotePower(s.votes, vals, id);
            && id in mid.programs && mid.programs[id] == s.programs[id] && VotePower(mid.votes, vals, id) == power
            && Weighed(s, params, vals, bonded, done + {id})
            == Decide(mid, vals, bonded, params.legacyThreshold, {id})
                 .(claims := if ClearsThreshold(power, bonded, params.legacyThreshold)
                             then Plus(mid.claims, s.programs[id].executor, power) else mid.claims)
  {
    DecideStep(s, vals, bonded, params.legacyThreshold, done, id);
    WeighedClaimsStep(s, params, vals, bonded, done, id);
    var decided := Decide(s, vals, bonded, params.legacyThreshold, done);
    SameDecisionForClaims(decided, Weighed(s, params, vals, bonded, done).claims, vals, bonded, params.legacyThreshold,
        id);
  }

  lemma {:induction false} WeighedClaimsStep(s: State, params: Params, vals: Validators, bonded: int, done: set<nat>,
          id: nat)
    requires id in s.programs && id !in done
    ensures var claims := Weighed(s, params, vals, bonded, done).claims;
            var power := VotePower(s.votes, vals, id);
            Weighed(s, params, vals, bonded, done + {id}).claims
            == if ClearsThreshold(power, bonded, params.legacyThreshold)
                then Plus(claims, s.programs[id].executor, power) else claims
  {
    var power := VotePower(s.votes, vals, id);
    FailingStep(s, vals, bonded, params.legacyThreshold, done, id);
    assert Get(Powers(s, vals), id) == power;
    GrantedUnlessFailing(s.claims, s.programs, Powers(s, vals), done,
        Failing(s, vals, bonded, params.legacyThreshold, done),
                         id, FailingOne(power, bonded, params.legacyThreshold, id));
  }

  lemma {:induction false} GrantedUnlessFailing(claims: map<Addr, int>, programs: map<nat, Program>,
          powers: map<nat, int>,
                             done: set<nat>, failing: set<nat>, id: nat, more: set<nat>)
    requires id in programs && id !in done && failing <= done && (more == {} || more == {id})
    ensures Granted(claims, programs, powers, (done + {id}) - (failing + more))
         == if more == {} then Plus(Granted(claims, programs, powers, done - failing), programs[id].executor,
             Get(powers, id))
            else Granted(claims, programs, powers, done - failing)
  {
    if more == {} {
      GrantedStep(claims, programs, powers, done - failing, id);
      assert (done + {id}) - (failing + more) == (done - failing) + {id};
    } else {
      assert (done + {id}) - (failing + more) == done - failing;
    }
  }

  /** A decision does not look at the claims. */
  lemma {:induction false} SameDecisionForClaims(s: State, claims: map<Addr, int>, vals: Validators, bonded: int,
          threshold: int, id: nat)
    ensures Decide(s.(claims := claims), vals, bonded, threshold, {id})
            == Decide(s, vals, bonded, threshold, {id}).(claims := claims)
  {
    assert Failing(s.(claims := claims), vals, bonded, threshold, {id}) == Failing(s, vals, bonded, threshold, {id});
  }

  lemma {:induction false} NothingGranted(claims: map<Addr, int>, programs: map<nat, Program>, powers: map<nat, int>)
    ensures Granted(claims, programs, powers, {}) == claims
  {
    forall r
      ensures Total(GrantTo(programs, powers, {}, r)) == 0
    {
      assert GrantTo(programs, powers, {}, r) == map[];
    }
  }

  lemma {:induction false} NothingWeighed(s: State, params: Params, vals: Validators, bonded: int)
    ensures Weighed(s, params, vals, bonded, {}) == s
  {
    DecideNothing(s, vals, bonded, params.legacyThreshold);
    assert {} - Failing(s, vals, bonded, params.legacyThreshold, {}) == {};
    NothingGranted(s.claims, s.programs, Powers(s, vals));
  }

  /** The second part of the end blocker: a pass over the active programs. */
  method ReweighPass(s: State, params: Params, vals: Validators, bonded: int) returns (s': State)
    ensures s' == Reweigh(s, params, vals, bonded)
  {
    s' := s;
    var todo := ActiveIds(s, params);
    ghost var done: set<nat> := {};
    NothingWeighed(s, params, vals, bonded);
    while todo != {}
      invariant done !! todo && done + todo == ActiveIds(s, params)
      invariant s' == Weighed(s, params, vals, bonded, done)
      decreases todo
    {
      var id :| id in todo;
      WeighedStep(s, params, vals, bonded, done, id);
      var executor := s'.programs[id].executor;
      var decided, power, clears := DecideOne(s', vals, bonded, params.legacyThreshold, id);
      s' := if clears then decided.(claims := Plus(decided.claims, executor, power)) else decided;
      todo := todo - {id};
      done := done + {id};
    }
    assert done == ActiveIds(s, params);
  }

  // ---------------------------------------------------------------------------
  // The payout

  /** The weights once an epoch's has been looked up. */
  function WeightRead(weights: Treasury.Rates, epoch: nat): Treasury.Rates
  {
    weights[epoch := Treasury.Stored(Treasury.WeightFound(weights, epoch))]
  }

  datatype Payout = Payout(denom: Denom, grants: map<Addr, int>)

  /** What the end of an epoch pays to whom; None where it panics. */
  ghost function PayoutOf(claims: map<Addr, int>, m: Mint.State, weights: Treasury.Rates,
          prices: Market.Prices): Option<Payout>
  {
    var epoch := GetEpoch(m.height);
    match Treasury.WeightFound(weights, epoch)
    case None => None
    case Some(weight) =>
      match RewardPool(prices, weight, Mint.Seigniorage(m, epoch))
      case None => Some(Payout(SDR, map[]))
      case Some(pool) =>
        if !Payable(claims, claims.Keys, Total(claims), pool.amount) then None
        else Some(Payout(pool.denom, Grants(claims, claims.Keys, Total(claims), pool.amount)))
  }

  /** At every end of an epoch of every run from genesis: if there is anything to pay out, the payout goes through if
      and only if every claim is positive and worth at least one coin, and then it pays no more than the pool and less
      than one coin a claim less than it. */
  lemma {:induction false} EveryPayout(c: Chain, params: Params, events: seq<Event>, vals: Validators, bonded: nat,
          weights: Treasury.Rates, prices: Market.Prices, pool: Pool)
    requires params.votePeriod > 0 && params.legacyThreshold >= 0 && Genesis(c) && Bonded(events)
    requires var m := Run(c, params, events).state.mint;
             var weight := Treasury.WeightFound(weights, GetEpoch(m.height));
             && weight.Some?
             && RewardPool(prices, weight.value, Mint.Seigniorage(m, GetEpoch(m.height))) == Some(pool)
    ensures var s := Run(c, params, events).state;
            var claims := Decided(s, params, vals, bonded).claims;
            var payout := PayoutOf(claims, s.mint, weights, prices);
            && (payout.Some?
                <==> forall r :: r in claims ==> claims[r] > 0 && pool.amount * claims[r] >= Total(claims) * Dec.ONE)
            && (payout.Some? && claims != map[] ==>
                  var paid := Total(payout.value.grants);
                  paid * Dec.ONE <= pool.amount < (paid + |claims|) * Dec.ONE)
  {
    var s := Run(c, params, events).state;
    var claims := Decided(s, params, vals, bonded).claims;
    ClaimsStayNonNegative(c, params, events);
    DecidedKeepsClaims(s, params, vals, bonded);
    PayableExactly(claims, pool.amount);
    PayoutAmounts(claims, s.mint, weights, prices, pool);
  }

  lemma {:induction false} PayoutAmounts(claims: map<Addr, int>, m: Mint.State, weights: Treasury.Rates,
          prices: Market.Prices, pool: Pool)
    requires NonNegative(claims) && pool.amount > 0
    requires var weight := Treasury.WeightFound(weights, GetEpoch(m.height));
             && weight.Some?
             && RewardPool(prices, weight.value, Mint.Seigniorage(m, GetEpoch(m.height))) == Some(pool)
    ensures var payout := PayoutOf(claims, m, weights, prices);
            && (payout.Some? <==> Payable(claims, claims.Keys, Total(claims), pool.amount))
            && (payout.Some? && claims != map[] ==>
                  var paid := Total(payout.value.grants);
                  paid * Dec.ONE <= pool.amount < (paid + |claims|) * Dec.ONE)
  {
    if claims != map[] && Payable(claims, claims.Keys, Total(claims), pool.amount) {
      PayableExactly(claims, pool.amount);
      var r :| r in claims;
      EntryAtMostTotal(claims, r);
      PayoutExact(claims, pool.amount);
    }
  }

  /** Looking at the seigniorage of an epoch changes no balance. */
  lemma {:induction false} PeekEvolves(m: Mint.State, epoch: nat)
    requires Mint.Sound(m)
    ensures var total := BookTotal(m.balances, LUNA);
            var once := Mint.Fill(m.issuance, total, LUNA, Mint.FirstDay(m.height, epoch));
            Mint.Evolves(m, m.(issuance := Mint.Fill(once, total, LUNA, Mint.LastDay(m.height, epoch))))
  {
    Ledger.TwoReadsEvolve(m, LUNA, Mint.FirstDay(m.height, epoch), Mint.LastDay(m.height, epoch));
  }

  // ---------------------------------------------------------------------------
  // The keeper

  class Keeper {
    const params: Params
    const mk: Mint.Keeper
    var programs: map<nat, Program>
    var votes: map<VoteKey, bool>
    var queue: set<Candidate>
    var claims: map<Addr, int>
    var lastId: nat

    constructor (params: Params, mk: Mint.Keeper)
      ensures this.params == params && this.mk == mk
      ensures Value() == State(map[], map[], {}, map[], 0, mk.Value())
    {
      this.params, this.mk := params, mk;
      programs, votes, queue, claims, lastId := map[], map[], {}, map[], 0;
    }

    ghost function Value(): State
      reads this, mk
    {
      State(programs, votes, queue, claims, lastId, mk.Value())
    }

    /** Runs a message and, as the application does, discards the changes of one that fails. */
    method Deliver(vals: Validators, msg: Msg) returns (ok: bool)
      modifies this, mk
      ensures ok <==> Handle(old(Value()), params, vals, msg).Ok?
      ensures Value() == if ok then Handle(old(Value()), params, vals, msg).value else old(Value())
      ensures mk.notBonded == old(mk.notBonded)
                              + if ok then Mint.LunaPart(params.depositDenom, Returned(old(Value()), params, msg))
                                  else 0
    {
      var balances, issuance, notBonded := mk.balances, mk.issuance, mk.notBonded;
      match msg {
        case Submit(title, description, submitter, executor) =>
          ok := SubmitProgram(title, description, submitter, executor);
        case Withdraw(id, submitter) =>
          ok := WithdrawProgram(id, submitter);
        case Vote(id, voter, option) =>
          ok := VoteProgram(vals, id, voter, option);
      }
      if !ok {
        mk.balances, mk.issuance, mk.notBonded := balances, issuance, notBonded;
      }
    }

    method SubmitProgram(title: string, description: string, submitter: Addr, executor: Addr) returns (ok: bool)
      modifies this, mk`balances, mk`issuance, mk`notBonded
      ensures ok <==> Handle(old(Value()), params, map[], Submit(title, description, submitter, executor)).Ok?
      ensures ok ==>
                Value() == Handle(old(Value()), params, map[], Submit(title, description, submitter, executor)).value
      ensures ok ==> mk.notBonded == old(mk.notBonded) - Mint.LunaPart(params.depositDenom, params.deposit)
      ensures !ok ==> unchanged(this)
    {
      ok := mk.Burn(submitter, params.depositDenom, params.deposit);
      if ok {
        var id := lastId + 1;
        lastId := id;
        var program := Program(id, title, description, submitter, executor, mk.height);
        programs := programs[id := program];
        queue := queue + {EntryOf(program, params)};
      }
    }

    method WithdrawProgram(id: nat, submitter: Addr) returns (ok: bool)
      modifies this, mk`balances, mk`issuance, mk`notBonded
      ensures ok <==> Handle(old(Value()), params, map[], Withdraw(id, submitter)).Ok?
      ensures ok ==> Value() == Handle(old(Value()), params, map[], Withdraw(id, submitter)).value
      ensures ok ==> mk.notBonded == old(mk.notBonded)
                       + Mint.LunaPart(params.depositDenom, Returned(old(Value()), params, Withdraw(id, submitter)))
      ensures !ok ==> unchanged(this)
    {
      if id !in programs || programs[id].submitter != submitter {
        return false;
      }
      var entry := Candidate(VotingEndBlock(programs[id], params), id);
      if entry in queue {
        ok := mk.Mint(submitter, params.depositDenom, params.deposit);
        if !ok {
          return;
        }
        queue := queue - {entry};
      }
      votes := WithoutVotesFor(votes, {id});
      programs := programs - {id};
      ok := true;
    }

    method VoteProgram(vals: Validators, id: nat, voter: Addr, option: bool) returns (ok: bool)
      modifies this`votes
      ensures ok <==> Handle(old(Value()), params, vals, Vote(id, voter, option)).Ok?
      ensures ok ==> Value() == Handle(old(Value()), params, vals, Vote(id, voter, option)).value
      ensures !ok ==> unchanged(this)
    {
      ok := id in programs && voter in vals;
      if ok {
        votes := votes[VoteKey(id, voter) := option];
      }
    }

    /** `EndBlocker`. False where the payout panics: on a reward weight that was never set, or on a claim worth less
        than a coin. */
    method EndBlocker(tk: TreasuryKeeper.Keeper, prices: Market.Prices, vals: Validators, bonded: int)
      returns (ok: bool)
      requires params.votePeriod > 0 && Mint.Sound(mk.Value()) && tk.mk == mk
      modifies this, mk`balances, mk`issuance, mk`notBonded, tk`weights
      ensures var s, m := old(Value()), old(mk.Value());
              var payout := PayoutOf(Decided(s, params, vals, bonded).claims, m, old(tk.weights), prices);
              if !IsPeriodLastBlock(mk.height, BLOCKS_PER_EPOCH) then ok && Value() == EndBlock(s, params, vals, bonded)
              else
                && (ok <==> payout.Some?)
                && (ok ==> Value() == EndBlock(s, params, vals, bonded).(mint := mk.Value()))
                && (ok ==> PaidOut(m, mk.Value(), payout.value.denom, payout.value.grants))
                && (ok ==>
                   mk.notBonded == old(mk.notBonded) + Mint.LunaPart(payout.value.denom, Total(payout.value.grants)))
      ensures var last := IsPeriodLastBlock(mk.height, BLOCKS_PER_EPOCH);
              && (!last ==> mk.notBonded == old(mk.notBonded))
              && tk.weights == if last then WeightRead(old(tk.weights), GetEpoch(mk.height)) else old(tk.weights)
    {
      DecideAll(vals, bonded);
      ok := true;
      if IsPeriodLastBlock(mk.height, BLOCKS_PER_EPOCH) {
        ok := PayEpoch(tk, prices);
        claims := map[];
      }
    }

    /** The payout at the end of an epoch. */
    method PayEpoch(tk: TreasuryKeeper.Keeper, prices: Market.Prices) returns (ok: bool)
      requires Mint.Sound(mk.Value()) && tk.mk == mk
      modifies mk`balances, mk`issuance, mk`notBonded, tk`weights
      ensures var payout := PayoutOf(claims, old(mk.Value()), old(tk.weights), prices);
              && (ok <==> payout.Some?)
              && (ok ==> PaidOut(old(mk.Value()), mk.Value(), payout.value.denom, payout.value.grants))
              && (ok ==>
                 mk.notBonded == old(mk.notBonded) + Mint.LunaPart(payout.value.denom, Total(payout.value.grants)))
      ensures tk.weights == WeightRead(old(tk.weights), GetEpoch(mk.height))
    {
      var epoch := GetEpoch(mk.height);
      ghost var m := mk.Value();
      var rewardWeight := tk.GetRewardWeight(epoch);
      if rewardWeight.None? {
        return false;
      }
      PeekEvolves(m, epoch);
      var seigniorage := mk.PeekEpochSeigniorage(epoch);
      ghost var read := mk.Value();
      var pool := RewardPool(prices, rewardWeight.value, seigniorage);
      if pool.None? {
        PaidNothing(read, SDR);
        PaidAfterRead(m, read, read, SDR, map[]);
        return true;
      }
      var weightSum := OracleSettlement.SumWeights(claims);
      ok := PayClaims(mk, claims, weightSum, pool.value.denom, pool.value.amount);
      if ok {
        PaidAfterRead(m, read, mk.Value(), pool.value.denom, Grants(claims, claims.Keys, weightSum, pool.value.amount));
      }
    }

    /** The first two parts of the end blocker. */
    method DecideAll(vals: Validators, bonded: int)
      requires params.votePeriod > 0
      modifies this
      ensures Value() == Decided(old(Value()), params, vals, bonded)
    {
      var s := State(programs, votes, queue, claims, lastId, Mint.State(mk.height, mk.balances, mk.issuance));
      s := EndVotingPass(s, params, vals, bonded);
      if IsPeriodLastBlock(mk.height, params.votePeriod) {
        s := ReweighPass(s, params, vals, bonded);
      }
      programs, votes, queue, claims := s.programs, s.votes, s.queue, s.claims;
    }
  }
}
