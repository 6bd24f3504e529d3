/**
 The commit-reveal protocol of x/oracle: prevotes, votes, feeder delegation and the end of a voting period,
 as steps of a state machine, with what every run of it keeps.
 */
module OracleProtocol {
  import opened Wrappers
  import opened Coins
  import opened Ballot
  import opened OracleTally
  import opened Epoch
  import Dec
  import Text

  // ---------------------------------------------------------------------------
  // Commitments

  /** Truncated SHA-256, idealised: the hash of a text, or bytes that are the hash of no text. */
  datatype Hash = Digest(text: string) | Junk(bytes: string)

  /** The text `salt:price:denom:voter`. */
  function Preimage(salt: string, price: int, denom: Denom, voter: Addr): string
  {
    salt + [Text.COLON] + Text.DecString(price) + ([Text.COLON] + denom.name + [Text.COLON] + voter.text)
  }

  function VoteHash(salt: string, price: int, denom: Denom, voter: Addr): Hash
  {
    Digest(Preimage(salt, price, denom, voter))
  }

  /** A commitment for one denomination and voter opens to one salt and one price, even though the
      fields of the hashed text are only separated by colons. */
  lemma {:induction false} CommitmentBinds(salt: string, price: int, salt': string, price': int, denom: Denom,
          voter: Addr)
    requires VoteHash(salt, price, denom, voter) == VoteHash(salt', price', denom, voter)
    ensures salt == salt' && price == price'
  {
    var tail := [Text.COLON] + denom.name + [Text.COLON] + voter.text;
    var a, b := salt + [Text.COLON] + Text.DecString(price), salt' + [Text.COLON] + Text.DecString(price');
    assert a + tail == b + tail;
    assert (a + tail)[..|a + tail| - |tail|] == a && (b + tail)[..|b + tail| - |tail|] == b;
    Text.LastColonSplits(salt, Text.DecString(price), salt', Text.DecString(price'));
    Text.DecStringInjective(price, price');
  }

  /** Nor can it be opened for another denomination or by another validator, as long as their names have no colon. */
  lemma {:induction false} CommitmentNames(salt: string, price: int, denom: Denom, voter: Addr, salt': string,
          price': int, denom': Denom, voter': Addr)
    requires Text.NoColon(denom.name) && Text.NoColon(denom'.name)
    requires Text.NoColon(voter.text) && Text.NoColon(voter'.text)
    requires VoteHash(salt, price, denom, voter) == VoteHash(salt', price', denom', voter')
    ensures salt == salt' && price == price' && denom == denom' && voter == voter'
  {
    FieldsSplit(salt + [Text.COLON] + Text.DecString(price), denom.name, voter.text,
        salt' + [Text.COLON] + Text.DecString(price'), denom'.name, voter'.text);
    Text.LastColonSplits(salt, Text.DecString(price), salt', Text.DecString(price'));
    Text.DecStringInjective(price, price');
  }

  /** The last two fields of a text, if they have no colon, can be told from the rest. */
  lemma {:induction false} FieldsSplit(a: string, x: string, y: string, a': string, x': string, y': string)
    requires Text.NoColon(x) && Text.NoColon(y) && Text.NoColon(x') && Text.NoColon(y')
    requires a + ([Text.COLON] + x + [Text.COLON] + y) == a' + ([Text.COLON] + x' + [Text.COLON] + y')
    ensures a == a' && x == x' && y == y'
  {
    Grouped(a, x, y);
    Grouped(a', x', y');
    Text.LastColonSplits(a + [Text.COLON] + x, y, a' + [Text.COLON] + x', y');
    Text.LastColonSplits(a, x, a', x');
  }

  lemma {:induction false} Grouped(a: string, x: string, y: string)
    ensures a + ([Text.COLON] + x + [Text.COLON] + y) == a + [Text.COLON] + x + [Text.COLON] + y
  {
  }

  // ---------------------------------------------------------------------------
  // State and messages

  datatype PricePrevote = PricePrevote(hash: Hash, denom: Denom, voter: Addr, submitBlock: nat)

  datatype State = State(
    prevotes: map<Key, PricePrevote>,
    votes: map<Key, PriceVote>,
    feeders: map<Addr, Addr>)

  datatype Msg =
    | Prevote(hash: Hash, denom: Denom, feeder: Addr, validator: Addr)
    | Vote(price: int, salt: string, denom: Denom, feeder: Addr, validator: Addr)
    | DelegateFeeder(operator: Addr, feedDelegate: Addr)

  datatype Error = NoVotingPermission | NoValidatorFound | NoPrevote | NotRevealPeriod | VerificationFailed

  /** By default a validator feeds for itself. */
  function FeedDelegate(s: State, operator: Addr): Addr
  {
    if operator in s.feeders then s.feeders[operator] else operator
  }

  predicate MayFeed(s: State, feeder: Addr, validator: Addr)
  {
    feeder == validator || FeedDelegate(s, validator) == feeder
  }

  /** What a message does to the state; an error leaves it as it was. */
  function Handle(s: State, params: Params, height: nat, vals: Validators, msg: Msg): Result<State, Error>
    requires params.votePeriod > 0
  {
    match msg
    case Prevote(hash, denom, feeder, validator) =>
      if !MayFeed(s, feeder, validator) then Err(NoVotingPermission)
      else if validator !in vals then Err(NoValidatorFound)
      else Ok(s.(prevotes := s.prevotes[Key(denom, validator) := PricePrevote(hash, denom, validator, height)]))
    case Vote(price, salt, denom, feeder, validator) =>
      var k := Key(denom, validator);
      if !MayFeed(s, feeder, validator) then Err(NoVotingPermission)
      else if validator !in vals then Err(NoValidatorFound)
      else if k !in s.prevotes then Err(NoPrevote)
      else
        var prevote := s.prevotes[k];
        if PeriodOf(height, params.votePeriod) - PeriodOf(prevote.submitBlock, params.votePeriod) != 1
            then Err(NotRevealPeriod)
        else if prevote.hash != VoteHash(salt, price, prevote.denom, prevote.voter) then Err(VerificationFailed)
        else Ok(s.(prevotes := s.prevotes - {Key(prevote.denom, prevote.voter)},
                   votes := s.votes[Key(prevote.denom, prevote.voter) := PriceVote(price, prevote.denom,
                       prevote.voter)]))
    case DelegateFeeder(operator, feedDelegate) =>
      if operator !in vals then Err(NoValidatorFound)
      else Ok(s.(feeders := s.feeders[operator := feedDelegate]))
  }

  /** Prevotes that have not expired at `height`. */
  function Surviving(prevotes: map<Key, PricePrevote>, votePeriod: nat, height: nat): map<Key, PricePrevote>
  {
    map k | k in prevotes && !(height > prevotes[k].submitBlock + votePeriod) :: prevotes[k]
  }

  /** The end of a block as far as prevotes and votes go: at the last block of a period the votes are
      cleared (after having been tallied) and old prevotes dropped. */
  function EndBlock(s: State, params: Params, height: nat): State
    requires params.votePeriod > 0
  {
    if !IsPeriodLastBlock(height, params.votePeriod) then s
    else s.(prevotes := Surviving(s.prevotes, params.votePeriod, height), votes := map[])
  }

  // ---------------------------------------------------------------------------
  // Runs

  /** Accepted commitments and reveals, in the order they happened, with the voting period of each. */
  datatype Entry =
    | Committed(key: Key, hash: Hash, period: nat)
    | Revealed(key: Key, salt: string, price: int, period: nat)

  datatype Chain = Chain(height: nat, state: State, log: seq<Entry>)

  function Now(c: Chain, params: Params): nat
    requires params.votePeriod > 0
  {
    PeriodOf(c.height, params.votePeriod)
  }

  datatype Event = Deliver(vals: Validators, msg: Msg) | NextBlock

  function LogOf(now: nat, msg: Msg): seq<Entry>
  {
    match msg
    case Prevote(hash, denom, _, validator) => [Committed(Key(denom, validator), hash, now)]
    case Vote(price, salt, denom, _, validator) => [Revealed(Key(denom, validator), salt, price, now)]
    case DelegateFeeder(_, _) => []
  }

  function Exec(c: Chain, params: Params, e: Event): Chain
    requires params.votePeriod > 0
  {
    match e
    case Deliver(vals, msg) =>
      (match Handle(c.state, params, c.height, vals, msg)
       case Ok(s) => Chain(c.height, s, c.log + LogOf(Now(c, params), msg))
       case Err(_) => c)
    case NextBlock => Chain(c.height + 1, EndBlock(c.state, params, c.height), c.log)
  }

  function Run(c: Chain, params: Params, events: seq<Event>): Chain
    requires params.votePeriod > 0
  {
    if events == [] then c
    else Exec(Run(c, params, events[..|events| - 1]), params, events[|events| - 1])
  }

  predicate Genesis(c: Chain)
  {
    c.state.prevotes == map[] && c.state.votes == map[] && c.log == []
  }

  /** Entry `i` commits, one period earlier and for the same validator and denomination, to exactly what
      entry `j` reveals. */
  predicate Opens(log: seq<Entry>, i: int, j: int)
  {
    && 0 <= i < j < |log| && log[i].Committed? && log[j].Revealed? && log[i].key == log[j].key
    && log[i].hash == VoteHash(log[j].salt, log[j].price, log[j].key.denom, log[j].key.voter)
    && log[i].period + 1 == log[j].period
  }

  /** Every reveal opens an earlier commitment of the preceding period. */
  ghost predicate RevealsWereCommitted(log: seq<Entry>)
  {
    forall j :: 0 <= j < |log| && log[j].Revealed? ==> exists i :: Opens(log, i, j)
  }

  /** A validator reveals at most once per denomination and period. */
  ghost predicate OneRevealPerPeriod(log: seq<Entry>)
  {
    forall i, j :: 0 <= i < j < |log| && log[i].Revealed? && log[j].Revealed? && log[i].key == log[j].key ==>
      log[i].period < log[j].period
  }

  /** Entry `j` is a reveal made in period `now`. */
  ghost predicate RevealIn(log: seq<Entry>, now: nat, j: int)
  {
    0 <= j < |log| && log[j].Revealed? && log[j].period == now
  }

  /** The votes in the store are exactly the reveals of the current period, with the price revealed. */
  ghost predicate VotesAreRevealsOf(votes: map<Key, PriceVote>, log: seq<Entry>, now: nat)
  {
    && (forall j :: RevealIn(log, now, j) ==>
          log[j].key in votes && votes[log[j].key] == PriceVote(log[j].price, log[j].key.denom, log[j].key.voter))
    && (forall k :: k in votes ==> exists j :: RevealIn(log, now, j) && log[j].key == k)
  }

  /** What holds of a chain at every moment of every run. */
  ghost predicate CommitRevealSafe(c: Chain, params: Params)
    requires params.votePeriod > 0
  {
    && RevealsWereCommitted(c.log)
    && OneRevealPerPeriod(c.log)
    && VotesAreRevealsOf(c.state.votes, c.log, Now(c, params))
  }

  // The invariant behind it.

  ghost predicate PrevotesLogged(c: Chain, params: Params)
    requires params.votePeriod > 0
  {
    forall k :: k in c.state.prevotes ==>
      var p := c.state.prevotes[k];
      p.denom == k.denom && p.voter == k.voter
          && Committed(k, p.hash, PeriodOf(p.submitBlock, params.votePeriod)) in c.log
  }

  ghost predicate LogInThePast(log: seq<Entry>, now: nat)
  {
    forall j :: 0 <= j < |log| ==> log[j].period <= now
  }

  /** Once a validator has revealed, only a commitment of the same or a later period can be in the store. */
  ghost predicate RevealConsumes(c: Chain, params: Params)
    requires params.votePeriod > 0
  {
    forall j :: 0 <= j < |c.log| && c.log[j].Revealed? && c.log[j].key in c.state.prevotes ==>
      c.log[j].period <= PeriodOf(c.state.prevotes[c.log[j].key].submitBlock, params.votePeriod)
  }

  ghost predicate Inv(c: Chain, params: Params)
    requires params.votePeriod > 0
  {
    CommitRevealSafe(c, params) && PrevotesLogged(c, params) && LogInThePast(c.log, Now(c, params))
        && RevealConsumes(c, params)
  }

  /** Appending to the log keeps what was said of the earlier entries. */
  lemma {:induction false} LogGrows(log: seq<Entry>, e: Entry)
    requires RevealsWereCommitted(log)
    requires e.Revealed? ==> exists i :: Opens(log + [e], i, |log|)
    ensures RevealsWereCommitted(log + [e])
  {
    forall j | 0 <= j < |log| && log[j].Revealed?
      ensures exists i :: Opens(log + [e], i, j)
    {
      var i :| Opens(log, i, j);
      assert Opens(log + [e], i, j);
    }
  }

  lemma {:induction false} CommitmentIsNoReveal(votes: map<Key, PriceVote>, log: seq<Entry>, now: nat, e: Entry)
    requires VotesAreRevealsOf(votes, log, now) && e.Committed?
    ensures VotesAreRevealsOf(votes, log + [e], now)
  {
    assert forall j :: RevealIn(log + [e], now, j) <==> RevealIn(log, now, j);
    forall k | k in votes
      ensures exists j :: RevealIn(log + [e], now, j) && (log + [e])[j].key == k
    {
      var j :| RevealIn(log, now, j) && log[j].key == k;
      assert RevealIn(log + [e], now, j) && (log + [e])[j].key == k;
    }
  }

  /** What an accepted commitment does to a chain. */
  ghost predicate Commits(c: Chain, d: Chain, params: Params, p: PricePrevote, e: Entry)
    requires params.votePeriod > 0
  {
    && e == Committed(Key(p.denom, p.voter), p.hash, Now(c, params)) && p.submitBlock == c.height
    && d.height == c.height && d.log == c.log + [e] && d.state.votes == c.state.votes
    && d.state.prevotes == c.state.prevotes[e.key := p]
  }

  lemma {:induction false} CommitRest(c: Chain, d: Chain, params: Params, p: PricePrevote, e: Entry)
    requires params.votePeriod > 0 && Commits(c, d, params, p, e)
    requires PrevotesLogged(c, params) && LogInThePast(c.log, Now(c, params)) && RevealConsumes(c, params)
    ensures PrevotesLogged(d, params) && LogInThePast(d.log, Now(d, params)) && RevealConsumes(d, params)
  {
  }

  lemma {:induction false} CommitUnique(log: seq<Entry>, e: Entry)
    requires OneRevealPerPeriod(log) && e.Committed?
    ensures OneRevealPerPeriod(log + [e])
  {
  }

  lemma {:induction false} PrevoteKeepsInv(c: Chain, params: Params, vals: Validators, msg: Msg)
    requires params.votePeriod > 0 && Inv(c, params)
    requires msg.Prevote? && Handle(c.state, params, c.height, vals, msg).Ok?
    ensures Inv(Exec(c, params, Deliver(vals, msg)), params)
  {
    var d := Exec(c, params, Deliver(vals, msg));
    var p := PricePrevote(msg.hash, msg.denom, msg.validator, c.height);
    var e := Committed(Key(msg.denom, msg.validator), msg.hash, Now(c, params));
    assert Commits(c, d, params, p, e);
    LogGrows(c.log, e);
    CommitUnique(c.log, e);
    CommitmentIsNoReveal(c.state.votes, c.log, Now(c, params), e);
    CommitRest(c, d, params, p, e);
  }

  /** What an accepted reveal of `p` under key `k` does to a chain. */
  ghost predicate Reveals(c: Chain, d: Chain, params: Params, p: PricePrevote, e: Entry)
    requires params.votePeriod > 0
  {
    && e.Revealed? && e.period == Now(c, params) && e.key in c.state.prevotes && p == c.state.prevotes[e.key]
    && p.hash == VoteHash(e.salt, e.price, e.key.denom, e.key.voter)
    && PeriodOf(p.submitBlock, params.votePeriod) + 1 == Now(c, params)
    && d.height == c.height && d.log == c.log + [e]
    && d.state.prevotes == c.state.prevotes - {e.key}
    && d.state.votes == c.state.votes[e.key := PriceVote(e.price, e.key.denom, e.key.voter)]
  }

  lemma {:induction false} RevealCommitted(c: Chain, d: Chain, params: Params, p: PricePrevote, e: Entry)
    requires params.votePeriod > 0 && Inv(c, params) && Reveals(c, d, params, p, e)
    ensures RevealsWereCommitted(d.log)
  {
    var i :| 0 <= i < |c.log| && c.log[i] == Committed(e.key, p.hash, PeriodOf(p.submitBlock, params.votePeriod));
    assert Opens(c.log + [e], i, |c.log|);
    LogGrows(c.log, e);
  }

  lemma {:induction false} RevealUnique(c: Chain, d: Chain, params: Params, p: PricePrevote, e: Entry)
    requires params.votePeriod > 0 && Inv(c, params) && Reveals(c, d, params, p, e)
    ensures OneRevealPerPeriod(d.log)
  {
  }

  lemma {:induction false} RevealCurrent(votes: map<Key, PriceVote>, log: seq<Entry>, now: nat, e: Entry)
    requires VotesAreRevealsOf(votes, log, now) && e.Revealed? && e.period == now
    requires forall j :: RevealIn(log, now, j) ==> log[j].key != e.key
    ensures VotesAreRevealsOf(votes[e.key := PriceVote(e.price, e.key.denom, e.key.voter)], log + [e], now)
  {
    var n, more := |log|, log + [e];
    assert RevealIn(more, now, n) && more[n].key == e.key;
    assert forall j :: RevealIn(more, now, j) <==> RevealIn(log, now, j) || j == n;
    forall q | q in votes && q != e.key
      ensures exists j :: RevealIn(more, now, j) && more[j].key == q
    {
      var j :| RevealIn(log, now, j) && log[j].key == q;
      assert RevealIn(more, now, j) && more[j].key == q;
    }
  }

  lemma {:induction false} RevealStored(c: Chain, d: Chain, params: Params, p: PricePrevote, e: Entry)
    requires params.votePeriod > 0 && Inv(c, params) && Reveals(c, d, params, p, e)
    ensures VotesAreRevealsOf(d.state.votes, d.log, Now(d, params))
  {
    assert forall j :: RevealIn(c.log, Now(c, params), j) ==> c.log[j].key != e.key;
    RevealCurrent(c.state.votes, c.log, Now(c, params), e);
  }

  lemma {:induction false} RevealRest(c: Chain, d: Chain, params: Params, p: PricePrevote, e: Entry)
    requires params.votePeriod > 0 && Reveals(c, d, params, p, e)
    requires PrevotesLogged(c, params) && LogInThePast(c.log, Now(c, params)) && RevealConsumes(c, params)
    ensures PrevotesLogged(d, params) && LogInThePast(d.log, Now(d, params)) && RevealConsumes(d, params)
  {
  }

  lemma {:induction false} VoteReveals(c: Chain, params: Params, vals: Validators, msg: Msg)
    requires params.votePeriod > 0 && PrevotesLogged(c, params)
    requires msg.Vote? && Handle(c.state, params, c.height, vals, msg).Ok?
    ensures var k := Key(msg.denom, msg.validator);
            && k in c.state.prevotes
            && Reveals(c, Exec(c, params, Deliver(vals, msg)), params, c.state.prevotes[k],
                       Revealed(k, msg.salt, msg.price, Now(c, params)))
  {
  }

  lemma {:induction false} VoteKeepsInv(c: Chain, params: Params, vals: Validators, msg: Msg)
    requires params.votePeriod > 0 && Inv(c, params)
    requires msg.Vote? && Handle(c.state, params, c.height, vals, msg).Ok?
    ensures Inv(Exec(c, params, Deliver(vals, msg)), params)
  {
    var d := Exec(c, params, Deliver(vals, msg));
    var k := Key(msg.denom, msg.validator);
    VoteReveals(c, params, vals, msg);
    var p, e := c.state.prevotes[k], Revealed(k, msg.salt, msg.price, Now(c, params));
    RevealCommitted(c, d, params, p, e);
    RevealUnique(c, d, params, p, e);
    RevealStored(c, d, params, p, e);
    RevealRest(c, d, params, p, e);
  }

  /** A new period finds no reveals of its own in the log, and the votes cleared. */
  lemma {:induction false} NewPeriodIsEmpty(log: seq<Entry>, now: nat)
    requires LogInThePast(log, now)
    ensures LogInThePast(log, now + 1) && VotesAreRevealsOf(map[], log, now + 1)
  {
    var next := now + 1;
    assert forall j :: !RevealIn(log, next, j);
  }

  lemma {:induction false} SamePeriodKeepsInv(c: Chain, d: Chain, params: Params)
    requires params.votePeriod > 0 && Inv(c, params)
    requires d.state == c.state && d.log == c.log && Now(d, params) == Now(c, params)
    ensures Inv(d, params)
  {
  }

  lemma {:induction false} NewPeriodKeepsInv(c: Chain, d: Chain, params: Params)
    requires params.votePeriod > 0 && Inv(c, params)
    requires d.log == c.log && d.state.votes == map[] && Now(d, params) == Now(c, params) + 1
    requires forall k :: k in d.state.prevotes ==> k in c.state.prevotes && d.state.prevotes[k] == c.state.prevotes[k]
    ensures Inv(d, params)
  {
    NewPeriodIsEmpty(c.log, Now(c, params));
  }

  lemma {:induction false} NextBlockKeepsInv(c: Chain, params: Params)
    requires params.votePeriod > 0 && Inv(c, params)
    ensures Inv(Exec(c, params, NextBlock), params)
  {
    LastBlockOpensNextPeriod(c.height, params.votePeriod);
    if IsPeriodLastBlock(c.height, params.votePeriod) {
      NewPeriodKeepsInv(c, Exec(c, params, NextBlock), params);
    } else {
      SamePeriodKeepsInv(c, Exec(c, params, NextBlock), params);
    }
  }

  lemma {:induction false} ExecKeepsInv(c: Chain, params: Params, e: Event)
    requires params.votePeriod > 0 && Inv(c, params)
    ensures Inv(Exec(c, params, e), params)
  {
    match e
    case NextBlock => NextBlockKeepsInv(c, params);
    case Deliver(vals, msg) =>
      if Handle(c.state, params, c.height, vals, msg).Ok? {
        match msg
        case Prevote(_, _, _, _) => PrevoteKeepsInv(c, params, vals, msg);
        case Vote(_, _, _, _, _) => VoteKeepsInv(c, params, vals, msg);
        case DelegateFeeder(_, _) =>
          var d := Exec(c, params, e);
          assert d.log == c.log;
      }
  }

  lemma {:induction false} RunKeepsInv(c: Chain, params: Params, events: seq<Event>)
    requires params.votePeriod > 0 && Inv(c, params)
    ensures Inv(Run(c, params, events), params)
    decreases |events|
  {
    if events != [] {
      RunKeepsInv(c, params, events[..|events| - 1]);
      ExecKeepsInv(Run(c, params, events[..|events| - 1]), params, events[|events| - 1]);
    }
  }

  /** Commit-reveal safety of every run from genesis, at every height and under any validator sets. */
  lemma {:induction false} CommitReveal(genesis: Chain, params: Params, events: seq<Event>)
    requires params.votePeriod > 0 && Genesis(genesis)
    ensures CommitRevealSafe(Run(genesis, params, events), params)
  {
    assert Inv(genesis, params);
    RunKeepsInv(genesis, params, events);
  }

  /** What a tally sees: each vote was committed in the preceding period, and no other price could have been
      revealed for that commitment. */
  lemma {:induction false} TalliedVotesWereCommitted(genesis: Chain, params: Params, events: seq<Event>, k: Key)
    returns (i: int, j: int)
    requires params.votePeriod > 0 && Genesis(genesis)
    requires k in Run(genesis, params, events).state.votes
    ensures var c := Run(genesis, params, events);
            && Opens(c.log, i, j) && c.log[j].key == k
            && c.log[j].period == Now(c, params)
            && c.state.votes[k].price == c.log[j].price
            && forall salt, price ::
                 VoteHash(salt, price, k.denom, k.voter) == c.log[i].hash ==> price == c.state.votes[k].price
  {
    var c := Run(genesis, params, events);
    CommitReveal(genesis, params, events);
    j :| RevealIn(c.log, Now(c, params), j) && c.log[j].key == k;
    i :| Opens(c.log, i, j);
    forall salt, price | VoteHash(salt, price, k.denom, k.voter) == c.log[i].hash
      ensures price == c.state.votes[k].price
    {
      CommitmentBinds(salt, price, c.log[j].salt, c.log[j].price, k.denom, k.voter);
    }
  }

  // ---------------------------------------------------------------------------
  // Who may feed

  /** The feeder a validator last named while it was a validator; to begin with, itself. */
  function LastNamed(events: seq<Event>, operator: Addr): Addr
  {
    if events == [] then operator
    else
      match events[|events| - 1]
      case Deliver(vals, DelegateFeeder(o, feedDelegate)) =>
        if o == operator && o in vals then feedDelegate else LastNamed(events[..|events| - 1], operator)
      case _ => LastNamed(events[..|events| - 1], operator)
  }

  lemma {:induction false} FeedersAreLastNamed(genesis: Chain, params: Params, events: seq<Event>, operator: Addr)
    requires params.votePeriod > 0 && genesis.state.feeders == map[]
    ensures FeedDelegate(Run(genesis, params, events).state, operator) == LastNamed(events, operator)
    decreases |events|
  {
    if events != [] {
      FeedersAreLastNamed(genesis, params, events[..|events| - 1], operator);
    }
  }

  /** In every run, what commits or reveals a price for a validator was sent by the validator itself or by the feeder it
      last named; anybody else is refused for lack of permission, before anything else is looked at. */
  lemma {:induction false} OnlyFeedersFeed(genesis: Chain, params: Params, events: seq<Event>, vals: Validators,
          msg: Msg)
    requires params.votePeriod > 0 && genesis.state.feeders == map[] && !msg.DelegateFeeder?
    ensures var c := Run(genesis, params, events);
            Handle(c.state, params, c.height, vals, msg) == Err(NoVotingPermission)
            <==> msg.feeder != msg.validator && msg.feeder != LastNamed(events, msg.validator)
  {
    FeedersAreLastNamed(genesis, params, events, msg.validator);
  }

  // ---------------------------------------------------------------------------
  // Expiry of prevotes

  /** A prevote submitted at `submitBlock` can be revealed at `height`. */
  predicate Revealable(params: Params, submitBlock: nat, height: nat)
    requires params.votePeriod > 0
  {
    PeriodOf(height, params.votePeriod) - PeriodOf(submitBlock, params.votePeriod) == 1
  }

  /** At the end of period `q` the prevotes dropped are those submitted before block `q * votePeriod - 1`. */
  lemma {:induction false} ExpiryBound(params: Params, height: nat, submitBlock: nat)
    requires params.votePeriod > 0 && IsPeriodLastBlock(height, params.votePeriod)
    ensures !(height > submitBlock + params.votePeriod)
       <==> submitBlock >= PeriodOf(height, params.votePeriod) * params.votePeriod - 1
  {
    LastBlockOpensNextPeriod(height, params.votePeriod);
  }

  lemma {:induction false} OlderPeriodNeverRevealable(params: Params, height: nat, submitBlock: nat, later: nat)
    requires params.votePeriod > 0 && later > height
    requires PeriodOf(height + 1, params.votePeriod) == PeriodOf(height, params.votePeriod) + 1
    requires PeriodOf(submitBlock, params.votePeriod) < PeriodOf(height, params.votePeriod)
    ensures !Revealable(params, submitBlock, later)
  {
    PeriodMonotone(height + 1, later, params.votePeriod);
  }

  lemma {:induction false} PeriodStart(submitBlock: nat, q: nat, n: nat)
    requires n > 0
    ensures PeriodOf(submitBlock, n) >= q <==> submitBlock >= q * n
  {
    PeriodBounds(submitBlock, n);
    var p := PeriodOf(submitBlock, n);
    if p < q {
      Dec.TimesMonotone(p + 1, q, n);
    } else {
      Dec.TimesMonotone(q, p, n);
    }
  }

  /** After the end of a period exactly the prevotes of that period can still be revealed. */
  lemma {:induction false} StillRevealable(params: Params, height: nat, submitBlock: nat)
    requires params.votePeriod > 0 && IsPeriodLastBlock(height, params.votePeriod) && submitBlock <= height
    ensures (exists later :: later > height && Revealable(params, submitBlock, later))
       <==> submitBlock >= PeriodOf(height, params.votePeriod) * params.votePeriod
  {
    LastBlockOpensNextPeriod(height, params.votePeriod);
    PeriodMonotone(submitBlock, height, params.votePeriod);
    PeriodStart(submitBlock, PeriodOf(height, params.votePeriod), params.votePeriod);
    if PeriodOf(submitBlock, params.votePeriod) == PeriodOf(height, params.votePeriod) {
      assert Revealable(params, submitBlock, height + 1);
    } else {
      forall later | later > height
        ensures !Revealable(params, submitBlock, later)
      {
        OlderPeriodNeverRevealable(params, height, submitBlock, later);
      }
    }
  }

  /** Expiry is sound, and one block short of exact: nothing that can still be revealed is dropped, and of the
      prevotes kept only those of the last block before the period can never be revealed any more. */
  lemma {:induction false} ExpirySoundAndTight(params: Params, height: nat, submitBlock: nat)
    requires params.votePeriod > 0 && IsPeriodLastBlock(height, params.votePeriod) && submitBlock <= height
    ensures var kept := !(height > submitBlock + params.votePeriod);
            var alive := exists later :: later > height && Revealable(params, submitBlock, later);
            && (alive ==> kept)
            && (kept && !alive <==> submitBlock == PeriodOf(height, params.votePeriod) * params.votePeriod - 1)
  {
    ExpiryBound(params, height, submitBlock);
    StillRevealable(params, height, submitBlock);
  }

  /** After the end of a period no prevote is older than the last block of the period before it. */
  lemma {:induction false} SurvivorsAreRecent(s: State, params: Params, height: nat, k: Key)
    requires params.votePeriod > 0 && IsPeriodLastBlock(height, params.votePeriod)
    requires k in s.prevotes
    ensures k in EndBlock(s, params, height).prevotes
       <==> s.prevotes[k].submitBlock >= PeriodOf(height, params.votePeriod) * params.votePeriod - 1
  {
    ExpiryBound(params, height, s.prevotes[k].submitBlock);
  }
}
