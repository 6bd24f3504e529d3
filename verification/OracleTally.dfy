/**
 Tally of a voting period (x/oracle/end_blocker.go): which ballots pass, what price each sets, and whose
 claims grow. The specification names no order of denominations or votes; the code visits them in any order.
 */
module OracleTally {
  import opened Wrappers
  import opened Sums
  import opened Coins
  import opened Ballot
  import Dec

  datatype Params = Params(votePeriod: nat, voteThreshold: int, rewardBand: int)

  /** Store key of a prevote or vote: `denom:voter`. */
  datatype Key = Key(denom: Denom, voter: Addr)

  datatype Claim = Claim(recipient: Addr, weight: int)

  predicate WellKeyed(votes: map<Key, PriceVote>)
  {
    forall k :: k in votes ==> votes[k].denom == k.denom && votes[k].voter == k.voter
  }

  function Denoms(votes: map<Key, PriceVote>): set<Denom>
  {
    set k | k in votes :: k.denom
  }

  /** The votes for one denomination among the given keys. */
  function BallotIn(votes: map<Key, PriceVote>, keys: set<Key>, d: Denom): set<PriceVote>
  {
    set k | k in keys && k in votes && k.denom == d :: votes[k]
  }

  /** Whether a price lies within half of the reward band around the median. */
  predicate InBand(params: Params, median: int, price: int)
  {
    var spread := Dec.QuoInt(params.rewardBand, 2);
    median - spread <= price <= median + spread
  }

  predicate BallotIsPassing(bonded: int, threshold: int, power: int)
  {
    power >= Dec.RoundInt(Dec.MulInt(threshold, bonded))
  }

  /** Everything a tally depends on. */
  datatype Round = Round(params: Params, vals: Validators, bonded: int, votes: map<Key, PriceVote>) {

    ghost function Votes(d: Denom): multiset<PriceVote>
    {
      multiset(BallotIn(votes, votes.Keys, d))
    }

    ghost predicate Passes(d: Denom)
    {
      BallotIsPassing(bonded, params.voteThreshold, Power(Votes(d), vals, Any))
    }

    ghost function Price(d: Denom): int
    {
      Median(Votes(d), vals)
    }

    /** The validator voted on the denomination within the reward band of a ballot that passed. */
    ghost predicate Wins(d: Denom, r: Addr)
    {
      Passes(d) && Key(d, r) in votes && r in vals && InBand(params, Price(d), votes[Key(d, r)].price)
    }

    ghost function Winners(d: Denom): set<Addr>
    {
      set r | r in vals && Wins(d, r)
    }

    /** The winning votes among the given denominations. */
    ghost function WinningVotes(denoms: set<Denom>): set<Key>
    {
      set k | k in votes && k.denom in denoms && Wins(k.denom, k.voter)
    }

    /** A price for exactly the denominations whose ballot passed: the weighted median. */
    ghost function PricesAfter(denoms: set<Denom>): map<Denom, int>
    {
      map d | d in denoms && Passes(d) :: Price(d)
    }

    /** Each winner's claim grows by its bonded tokens, once for every denomination it won. */
    ghost function ClaimsAfter(claims: map<Addr, int>, denoms: set<Denom>): map<Addr, int>
    {
      ClaimsWith(claims, vals, WinningVotes(denoms))
    }
  }

  ghost function WonBy(wins: set<Key>, r: Addr): set<Key>
  {
    set k | k in wins && k.voter == r
  }

  function StakeOf(vals: Validators, r: Addr): nat
  {
    if r in vals then vals[r] else 0
  }

  /** Claims grown by the bonded tokens of the voter of each winning vote. */
  ghost function ClaimsWith(claims: map<Addr, int>, vals: Validators, wins: set<Key>): map<Addr, int>
  {
    map r | r in claims.Keys + (set k | k in wins :: k.voter) :: Get(claims, r) + |WonBy(wins, r)| * StakeOf(vals, r)
  }

  /** Claims once each of `winners` has been added with its bonded tokens. */
  function AddWinners(claims: map<Addr, int>, vals: Validators, winners: set<Addr>): map<Addr, int>
  {
    map r | r in claims.Keys + winners :: Get(claims, r) + (if r in winners then StakeOf(vals, r) else 0)
  }

  function KeysFor(d: Denom, voters: set<Addr>): set<Key>
  {
    set r | r in voters :: Key(d, r)
  }

  lemma {:induction false} WonByStep(wins: set<Key>, d: Denom, winners: set<Addr>, r: Addr)
    requires forall k :: k in wins ==> k.denom != d
    ensures |WonBy(wins + KeysFor(d, winners), r)| == |WonBy(wins, r)| + (if r in winners then 1 else 0)
  {
    var before, after := WonBy(wins, r), WonBy(wins + KeysFor(d, winners), r);
    if r in winners {
      assert after == before + {Key(d, r)} && Key(d, r) !in before;
    } else {
      assert after == before;
    }
  }

  lemma {:induction false} ClaimOfNobody(claims: map<Addr, int>, vals: Validators, wins: set<Key>, r: Addr)
    ensures Get(ClaimsWith(claims, vals, wins), r) == Get(claims, r) + |WonBy(wins, r)| * StakeOf(vals, r)
  {
    if forall k :: k in wins ==> k.voter != r {
      assert WonBy(wins, r) == {};
    }
  }

  lemma {:induction false} ClaimantsStep(claims: map<Addr, int>, vals: Validators, wins: set<Key>, d: Denom,
          winners: set<Addr>, r: Addr)
    ensures r in ClaimsWith(claims, vals, wins + KeysFor(d, winners))
       <==> r in ClaimsWith(claims, vals, wins) || r in winners
  {
    assert r in winners ==> Key(d, r) in wins + KeysFor(d, winners);
  }

  /** One more denomination adds its winners. */
  lemma {:induction false} ClaimsStep(claims: map<Addr, int>, vals: Validators, wins: set<Key>, d: Denom,
          winners: set<Addr>)
    requires forall k :: k in wins ==> k.denom != d
    ensures ClaimsWith(claims, vals, wins + KeysFor(d, winners))
            == AddWinners(ClaimsWith(claims, vals, wins), vals, winners)
  {
    var more := wins + KeysFor(d, winners);
    var before, after := ClaimsWith(claims, vals, wins), ClaimsWith(claims, vals, more);
    var added := AddWinners(before, vals, winners);
    forall r
      ensures (r in after <==> r in added) && Get(after, r) == Get(added, r)
    {
      ClaimantsStep(claims, vals, wins, d, winners, r);
      WonByStep(wins, d, winners, r);
      ClaimOfNobody(claims, vals, wins, r);
      ClaimOfNobody(claims, vals, more, r);
      Dec.OneMore(|WonBy(wins, r)|, StakeOf(vals, r));
    }
    SameMap(after, added);
  }

  lemma {:induction false} WinningVotesStep(round: Round, denoms: set<Denom>, d: Denom)
    ensures round.WinningVotes(denoms + {d}) == round.WinningVotes(denoms) + KeysFor(d, round.Winners(d))
  {
    var more := KeysFor(d, round.Winners(d));
    forall k | k in more
      ensures k in round.WinningVotes(denoms + {d})
    {
    }
    forall k | k in round.WinningVotes(denoms + {d}) && k.denom == d
      ensures k in more
    {
      assert k == Key(d, k.voter) && k.voter in round.Winners(d);
    }
  }

  /** A ballot that passes with a validator among its voters rewards somebody: whoever voted the median, at least. */
  lemma {:induction false} SomebodyWins(round: Round, d: Denom)
    requires WellKeyed(round.votes) && round.params.rewardBand >= 0
    requires round.Passes(d) && HasValidator(round.Votes(d), round.vals)
    ensures round.Winners(d) != {}
  {
    var m := round.Price(d);
    assert IsValidatorPrice(round.Votes(d), round.vals, m);
    var v :| v in round.Votes(d) && v.voter in round.vals && v.price == m;
    assert v in BallotIn(round.votes, round.votes.Keys, d);
    var k :| k in round.votes && k.denom == d && round.votes[k] == v;
    assert k == Key(d, v.voter);
    Dec.DivNonNegative(round.params.rewardBand, 2);
    assert InBand(round.params, m, v.price);
    assert v.voter in round.Winners(d);
  }

  /** With positive votes, as messages are required to carry, a price is zero exactly when nobody who voted on it is a
      validator any more; all other prices are positive. */
  lemma {:induction false} PriceIsPositive(round: Round, d: Denom)
    requires forall k :: k in round.votes ==> round.votes[k].price > 0
    ensures if HasValidator(round.Votes(d), round.vals) then round.Price(d) > 0 else round.Price(d) == 0
  {
    if HasValidator(round.Votes(d), round.vals) {
      var m := round.Price(d);
      assert IsValidatorPrice(round.Votes(d), round.vals, m);
      var v :| v in round.Votes(d) && v.voter in round.vals && v.price == m;
      assert v in BallotIn(round.votes, round.votes.Keys, d);
    }
  }

  /** So no zero price is ever stored while the rounded threshold is positive: a ballot that passes has power. */
  lemma {:induction false} PricesArePositive(round: Round, denoms: set<Denom>)
    requires forall k :: k in round.votes ==> round.votes[k].price > 0
    requires Dec.RoundInt(Dec.MulInt(round.params.voteThreshold, round.bonded)) > 0
    ensures forall d :: d in round.PricesAfter(denoms) ==> round.PricesAfter(denoms)[d] > 0
  {
    forall d | d in denoms && round.Passes(d)
      ensures round.Price(d) > 0
    {
      var _ := SomeValidatorBehindPower(round.Votes(d), round.vals, Any);
      PriceIsPositive(round, d);
    }
  }

  // ---------------------------------------------------------------------------
  // Collecting votes into ballots

  lemma {:induction false} MultisetOfSetPlus(s: set<PriceVote>, v: PriceVote)
    requires v !in s
    ensures multiset(s + {v}) == multiset(s) + multiset{v}
  {
  }

  lemma {:induction false} BallotStep(votes: map<Key, PriceVote>, keys: set<Key>, k: Key, d: Denom)
    requires WellKeyed(votes) && k in votes && k !in keys
    ensures multiset(BallotIn(votes, keys + {k}, d))
         == multiset(BallotIn(votes, keys, d)) + (if k.denom == d then multiset{votes[k]} else multiset{})
  {
    if k.denom == d {
      assert BallotIn(votes, keys + {k}, d) == BallotIn(votes, keys, d) + {votes[k]};
      MultisetOfSetPlus(BallotIn(votes, keys, d), votes[k]);
    } else {
      assert BallotIn(votes, keys + {k}, d) == BallotIn(votes, keys, d);
    }
  }

  function BallotFor(ballots: map<Denom, seq<PriceVote>>, d: Denom): seq<PriceVote>
  {
    if d in ballots then ballots[d] else []
  }

  /** `ballots` holds the votes under the given keys, by denomination. */
  ghost predicate Collected(ballots: map<Denom, seq<PriceVote>>, votes: map<Key, PriceVote>, keys: set<Key>)
  {
    && ballots.Keys == (set k | k in keys :: k.denom)
    && forall d :: multiset(BallotFor(ballots, d)) == multiset(BallotIn(votes, keys, d))
  }

  lemma {:induction false} CollectStep(ballots: map<Denom, seq<PriceVote>>, votes: map<Key, PriceVote>, keys: set<Key>,
          k: Key)
    requires WellKeyed(votes) && k in votes && k !in keys && Collected(ballots, votes, keys)
    ensures Collected(ballots[k.denom := BallotFor(ballots, k.denom) + [votes[k]]], votes, keys + {k})
  {
    var more := ballots[k.denom := BallotFor(ballots, k.denom) + [votes[k]]];
    forall d
      ensures multiset(BallotFor(more, d)) == multiset(BallotIn(votes, keys + {k}, d))
    {
      BallotStep(votes, keys, k, d);
      assert multiset(BallotFor(ballots, d)) == multiset(BallotIn(votes, keys, d));
    }
  }

  /** `collectVotes`: the votes in the store, categorised by denomination. */
  method CollectVotes(votes: map<Key, PriceVote>) returns (ballots: map<Denom, seq<PriceVote>>)
    requires WellKeyed(votes)
    ensures Collected(ballots, votes, votes.Keys)
  {
    ballots := map[];
    var todo := votes.Keys;
    ghost var done: set<Key> := {};
    NothingCollected(votes);
    while todo != {}
      invariant done + todo == votes.Keys && done !! todo
      invariant Collected(ballots, votes, done)
      decreases todo
    {
      var k :| k in todo;
      CollectStep(ballots, votes, done, k);
      MoveOne(votes.Keys, done, todo, k);
      var vote := votes[k];
      ballots := ballots[vote.denom := BallotFor(ballots, vote.denom) + [vote]];
      todo := todo - {k};
      done := done + {k};
    }
    assert done == votes.Keys;
  }

  lemma {:induction false} NothingCollected(votes: map<Key, PriceVote>)
    ensures Collected(map[], votes, {})
  {
    forall d
      ensures BallotIn(votes, {}, d) == {}
    {
    }
  }

  // ---------------------------------------------------------------------------
  // Tallying one ballot

  /** The claims of the in-band validators, in ballot order. */
  function WinningClaims(s: seq<PriceVote>, params: Params, vals: Validators, median: int): seq<Claim>
  {
    if s == [] then [] else
    var v := s[|s| - 1];
    var front := WinningClaims(s[..|s| - 1], params, vals, median);
    if InBand(params, median, v.price) && v.voter in vals then front + [Claim(v.voter, vals[v.voter])] else front
  }

  function WinningVoters(s: seq<PriceVote>, params: Params, vals: Validators, median: int): set<Addr>
  {
    set v | v in s && InBand(params, median, v.price) && v.voter in vals :: v.voter
  }

  function AddClaims(claims: map<Addr, int>, pool: seq<Claim>): map<Addr, int>
  {
    if pool == [] then claims else
    var c := pool[|pool| - 1];
    Plus(AddClaims(claims, pool[..|pool| - 1]), c.recipient, c.weight)
  }

  ghost predicate OneVotePerVoter(s: seq<PriceVote>)
  {
    forall i, j :: 0 <= i < j < |s| ==> s[i].voter != s[j].voter
  }

  lemma {:induction false} AddWinner(claims: map<Addr, int>, vals: Validators, winners: set<Addr>, w: Addr)
    requires w !in winners
    ensures AddWinners(claims, vals, winners + {w}) == Plus(AddWinners(claims, vals, winners), w, StakeOf(vals, w))
  {
  }

  /** With one vote a voter, adding the claims one by one adds the set of winners. */
  lemma {:induction false} ClaimsOfWinners(claims: map<Addr, int>, s: seq<PriceVote>, params: Params, vals: Validators,
          median: int)
    requires OneVotePerVoter(s)
    ensures AddClaims(claims, WinningClaims(s, params, vals, median))
         == AddWinners(claims, vals, WinningVoters(s, params, vals, median))
    decreases |s|
  {
    if s == [] {
      assert WinningVoters(s, params, vals, median) == {};
      assert AddWinners(claims, vals, {}) == claims;
    } else {
      var front, v := s[..|s| - 1], s[|s| - 1];
      ClaimsOfWinners(claims, front, params, vals, median);
      var winners := WinningVoters(front, params, vals, median);
      assert forall u :: u in s <==> u in front || u == v;
      if InBand(params, median, v.price) && v.voter in vals {
        assert WinningVoters(s, params, vals, median) == winners + {v.voter};
        var pool := WinningClaims(s, params, vals, median);
        assert pool[..|pool| - 1] == WinningClaims(front, params, vals, median);
        AddWinner(claims, vals, winners, v.voter);
      } else {
        assert WinningVoters(s, params, vals, median) == winners;
      }
    }
  }

  lemma {:induction false} RepeatedVote(s: seq<PriceVote>, i: nat, j: nat)
    requires i < j < |s|
    ensures s[i] == s[j] ==> multiset(s)[s[i]] >= 2
  {
    assert s == s[..j] + s[j..];
    assert s[i] in s[..j] && s[j] in s[j..];
  }

  /** A listing of a set of votes under distinct keys has no voter twice. */
  lemma {:induction false} ListingHasOneVotePerVoter(s: seq<PriceVote>, votes: map<Key, PriceVote>, d: Denom)
    requires WellKeyed(votes) && multiset(s) == multiset(BallotIn(votes, votes.Keys, d))
    ensures OneVotePerVoter(s)
    ensures forall v :: v in s <==> v in BallotIn(votes, votes.Keys, d)
  {
    var b := BallotIn(votes, votes.Keys, d);
    assert forall v :: v in s <==> v in multiset(s);
    forall i, j | 0 <= i < j < |s|
      ensures s[i].voter != s[j].voter
    {
      RepeatedVote(s, i, j);
      assert s[i] in s && s[j] in s;
      assert multiset(b)[s[i]] <= 1;
    }
  }

  lemma {:induction false} WinningVotersAreWinners(round: Round, s: seq<PriceVote>, d: Denom)
    requires WellKeyed(round.votes) && multiset(s) == round.Votes(d) && round.Passes(d)
    ensures WinningVoters(s, round.params, round.vals, round.Price(d)) == round.Winners(d)
  {
    ListingHasOneVotePerVoter(s, round.votes, d);
    var m := round.Price(d);
    var voters := WinningVoters(s, round.params, round.vals, m);
    forall r | r in round.Winners(d)
      ensures r in voters
    {
      assert round.votes[Key(d, r)] in s;
    }
  }

  method AddClaimPool(claims: map<Addr, int>, pool: seq<Claim>) returns (claims': map<Addr, int>)
    ensures claims' == AddClaims(claims, pool)
  {
    claims' := claims;
    for i := 0 to |pool|
      invariant claims' == AddClaims(claims, pool[..i])
    {
      assert pool[..i + 1][..i] == pool[..i];
      claims' := Plus(claims', pool[i].recipient, pool[i].weight);
    }
    assert pool[..|pool|] == pool;
  }

  /** `tally`: the median, and the claim pool with the faithful voters added. */
  method Tally(pb: array<PriceVote>, params: Params, vals: Validators, claims: map<Addr, int>)
    returns (median: int, claims': map<Addr, int>)
    requires OneVotePerVoter(pb[..])
    modifies pb
    ensures median == Median(multiset(old(pb[..])), vals)
    ensures claims' == AddWinners(claims, vals, WinningVoters(old(pb[..]), params, vals, median))
  {
    ghost var s := pb[..];
    var sorted := IsSorted(pb);
    if !sorted {
      Sort(pb);
    }
    median := WeightedMedian(pb, vals);
    var winners: seq<Claim> := [];
    for i := 0 to pb.Length
      invariant winners == WinningClaims(pb[..i], params, vals, median)
      invariant multiset(pb[..]) == multiset(s)
    {
      assert pb[..i + 1][..i] == pb[..i];
      if InBand(params, median, pb[i].price) {
        if pb[i].voter in vals {
          winners := winners + [Claim(pb[i].voter, vals[pb[i].voter])];
        }
      }
    }
    assert pb[..pb.Length] == pb[..];
    claims' := AddClaimPool(claims, winners);
    PermutationKeepsVoters(s, pb[..], params, vals, median);
    ClaimsOfWinners(claims, pb[..], params, vals, median);
  }

  lemma {:induction false} PermutationKeepsVoters(s: seq<PriceVote>, t: seq<PriceVote>, params: Params,
          vals: Validators, median: int)
    requires multiset(s) == multiset(t) && OneVotePerVoter(s)
    ensures OneVotePerVoter(t)
    ensures WinningVoters(s, params, vals, median) == WinningVoters(t, params, vals, median)
  {
    assert forall v :: v in s <==> v in multiset(s);
    assert forall v :: v in t <==> v in multiset(t);
    forall i, j | 0 <= i < j < |t|
      ensures t[i].voter != t[j].voter
    {
      RepeatedVote(t, i, j);
      AtMostOnce(s, t[i]);
      assert t[i] in s && t[j] in s;
      var a, b :| 0 <= a < |s| && 0 <= b < |s| && s[a] == t[i] && s[b] == t[j];
      assert a != b;
    }
  }

  lemma {:induction false} AtMostOnce(s: seq<PriceVote>, v: PriceVote)
    requires OneVotePerVoter(s)
    ensures multiset(s)[v] <= 1
    decreases |s|
  {
    if s != [] {
      var front, last := s[..|s| - 1], s[|s| - 1];
      assert s == front + [last];
      AtMostOnce(front, v);
      assert last !in front;
    }
  }

  /** The tally of a period: prices and claims do not depend on the order in which ballots are visited. */
  method TallyAll(round: Round, claims: map<Addr, int>) returns (prices: map<Denom, int>, claims': map<Addr, int>)
    requires WellKeyed(round.votes)
    ensures prices == round.PricesAfter(Denoms(round.votes))
    ensures claims' == round.ClaimsAfter(claims, Denoms(round.votes))
  {
    var ballots := CollectVotes(round.votes);
    prices, claims' := map[], claims;
    var todo := ballots.Keys;
    ghost var done: set<Denom> := {};
    NoDenomsNoChange(round, claims);
    while todo != {}
      invariant done + todo == ballots.Keys && done !! todo
      invariant Tallied(round, claims, done, prices, claims')
      decreases todo
    {
      var d :| d in todo;
      assert multiset(BallotFor(ballots, d)) == round.Votes(d);
      TalliedStep(round, claims, done, prices, claims', d);
      MoveOne(ballots.Keys, done, todo, d);
      var price;
      price, claims' := TallyDenom(round, d, ballots[d], claims');
      prices := if price.Some? then prices[d := price.value] else prices;
      todo := todo - {d};
      done := done + {d};
    }
    assert done == ballots.Keys == Denoms(round.votes);
  }

  /** The prices and claims once the ballots of `done` have been tallied. */
  ghost predicate Tallied(round: Round, claims: map<Addr, int>, done: set<Denom>, prices: map<Denom, int>,
          claims': map<Addr, int>)
  {
    prices == round.PricesAfter(done) && claims' == round.ClaimsAfter(claims, done)
  }

  lemma {:induction false} TalliedStep(round: Round, claims: map<Addr, int>, done: set<Denom>, prices: map<Denom, int>,
                                       claims': map<Addr, int>, d: Denom)
    requires Tallied(round, claims, done, prices, claims') && d !in done
    ensures Tallied(round, claims, done + {d}, if round.Passes(d) then prices[d := round.Price(d)] else prices,
                    AddWinners(claims', round.vals, round.Winners(d)))
  {
    PricesStep(round, done, d);
    WinnersStep(round, claims, done, d);
  }

  lemma {:induction false} PricesStep(round: Round, denoms: set<Denom>, d: Denom)
    requires d !in denoms
    ensures round.PricesAfter(denoms + {d})
         == if round.Passes(d) then round.PricesAfter(denoms)[d := round.Price(d)] else round.PricesAfter(denoms)
  {
    var passing := set x | x in denoms + {d} && round.Passes(x);
    var prices := map x | x in denoms + {d} :: round.Price(x);
    PricesArePicked(round, denoms, passing, prices);
    PricesArePicked(round, denoms + {d}, passing, prices);
    PickStep(denoms, passing, prices, d);
  }

  /** The prices of those denominations that are to have one. */
  function Pick(denoms: set<Denom>, passing: set<Denom>, prices: map<Denom, int>): map<Denom, int>
  {
    map x | x in denoms && x in passing && x in prices :: prices[x]
  }

  lemma {:induction false} PricesArePicked(round: Round, denoms: set<Denom>, passing: set<Denom>,
          prices: map<Denom, int>)
    requires forall x :: x in denoms ==>
               (x in passing <==> round.Passes(x)) && x in prices && prices[x] == round.Price(x)
    ensures round.PricesAfter(denoms) == Pick(denoms, passing, prices)
  {
  }

  lemma {:induction false} PickStep(denoms: set<Denom>, passing: set<Denom>, prices: map<Denom, int>, d: Denom)
    requires d !in denoms && d in prices
    ensures Pick(denoms + {d}, passing, prices)
         == if d in passing then Pick(denoms, passing, prices)[d := prices[d]] else Pick(denoms, passing, prices)
  {
  }

  lemma {:induction false} WinnersStep(round: Round, claims: map<Addr, int>, denoms: set<Denom>, d: Denom)
    requires d !in denoms
    ensures round.ClaimsAfter(claims, denoms + {d})
         == AddWinners(round.ClaimsAfter(claims, denoms), round.vals, round.Winners(d))
  {
    WinningVotesStep(round, denoms, d);
    ClaimsStep(claims, round.vals, round.WinningVotes(denoms), d, round.Winners(d));
  }

  lemma {:induction false} NoDenomsNoChange(round: Round, claims: map<Addr, int>)
    ensures round.PricesAfter({}) == map[] && round.ClaimsAfter(claims, {}) == claims
  {
    assert round.WinningVotes({}) == {};
    assert forall r :: WonBy({}, r) == {};
  }

  lemma {:induction false} NoWinners(round: Round, d: Denom, claims: map<Addr, int>)
    requires !round.Passes(d)
    ensures AddWinners(claims, round.vals, round.Winners(d)) == claims
  {
    assert round.Winners(d) == {};
  }

  /** One ballot: dropped when it does not pass, tallied when it does. */
  method TallyDenom(round: Round, d: Denom, ballot: seq<PriceVote>, claims: map<Addr, int>)
    returns (price: Option<int>, claims': map<Addr, int>)
    requires WellKeyed(round.votes) && multiset(ballot) == round.Votes(d)
    ensures price == if round.Passes(d) then Some(round.Price(d)) else None
    ensures claims' == AddWinners(claims, round.vals, round.Winners(d))
  {
    ListingHasOneVotePerVoter(ballot, round.votes, d);
    var pb := new PriceVote[|ballot|](i requires 0 <= i < |ballot| => ballot[i]);
    assert pb[..] == ballot;
    var power := ComputePower(ballot, round.vals);
    if BallotIsPassing(round.bonded, round.params.voteThreshold, power) {
      var median;
      WinningVotersAreWinners(round, ballot, d);
      median, claims' := Tally(pb, round.params, round.vals, claims);
      price := Some(median);
    } else {
      price, claims' := None, claims;
      NoWinners(round, d, claims);
    }
  }
}
