/** Which messages of x/oracle are accepted: a decision by what happened so far, over every run. */
module OracleAcceptance {
  import opened Wrappers
  import opened Coins
  import opened Ballot
  import opened OracleTally
  import opened OracleProtocol
  import opened Epoch

  /** The last commitment or reveal of a validator for a denomination. */
  function LastFor(log: seq<Entry>, k: Key): Option<Entry>
  {
    if log == [] then None
    else if log[|log| - 1].key == k then Some(log[|log| - 1])
    else LastFor(log[..|log| - 1], k)
  }

  /** The last entry for a key, as the commitment it may be. */
  predicate Pending(log: seq<Entry>, k: Key, hash: Hash, period: int)
  {
    match LastFor(log, k)
    case Some(Committed(_, h, p)) => h == hash && p == period
    case _ => false
  }

  /** A stored prevote is the last thing its validator did for the denomination, and no commitment that could still be
      opened is missing. */
  ghost predicate LogTells(c: Chain, params: Params)
    requires params.votePeriod > 0
  {
    && (forall k :: k in c.state.prevotes ==> StoredAsLogged(c, params, k))
    && (forall k, hash, period ::
          Pending(c.log, k, hash, period) && period + 1 >= Now(c, params) ==> k in c.state.prevotes)
  }

  ghost predicate StoredAsLogged(c: Chain, params: Params, k: Key)
    requires params.votePeriod > 0 && k in c.state.prevotes
  {
    var p := c.state.prevotes[k];
    p.denom == k.denom && p.voter == k.voter
        && Pending(c.log, k, p.hash, PeriodOf(p.submitBlock, params.votePeriod))
  }

  lemma {:induction false} LastOfMore(log: seq<Entry>, e: Entry, k: Key)
    ensures LastFor(log + [e], k) == if e.key == k then Some(e) else LastFor(log, k)
  {
    assert (log + [e])[..|log|] == log;
  }

  lemma {:induction false} DeliverTells(c: Chain, params: Params, e: Event)
    requires params.votePeriod > 0 && LogTells(c, params) && e.Deliver?
    ensures LogTells(Exec(c, params, e), params)
  {
    if Handle(c.state, params, c.height, e.vals, e.msg).Ok? && !e.msg.DelegateFeeder? {
      var d := Exec(c, params, e);
      var entry := LogOf(Now(c, params), e.msg)[0];
      assert d.log == c.log + [entry];
      forall k { LastOfMore(c.log, entry, k); }
      forall k | k in d.state.prevotes
        ensures StoredAsLogged(d, params, k)
      {
        assert k != entry.key ==> k in c.state.prevotes && StoredAsLogged(c, params, k);
      }
      assert e.msg.Vote? ==> StoredAsLogged(c, params, entry.key);
      forall k, hash, period | Pending(d.log, k, hash, period) && period + 1 >= Now(d, params)
        ensures k in d.state.prevotes
      {
        assert k != entry.key ==> Pending(c.log, k, hash, period);
      }
    } else {
      var d := Exec(c, params, e);
      assert d.log == c.log && d.state.prevotes == c.state.prevotes && d.height == c.height;
      assert forall k :: k in d.state.prevotes ==> StoredAsLogged(c, params, k) ==> StoredAsLogged(d, params, k);
    }
  }

  lemma {:induction false} NextBlockTells(c: Chain, params: Params)
    requires params.votePeriod > 0 && LogTells(c, params)
    ensures LogTells(Exec(c, params, NextBlock), params)
  {
    var d := Exec(c, params, NextBlock);
    LastBlockOpensNextPeriod(c.height, params.votePeriod);
    assert forall k :: k in d.state.prevotes ==> StoredAsLogged(c, params, k) ==> StoredAsLogged(d, params, k);
    forall k, hash, period | Pending(d.log, k, hash, period) && period + 1 >= Now(d, params)
      ensures k in d.state.prevotes
    {
      assert Pending(c.log, k, hash, period);
      assert StoredAsLogged(c, params, k);
      if IsPeriodLastBlock(c.height, params.votePeriod) {
        ExpiryBound(params, c.height, c.state.prevotes[k].submitBlock);
        PeriodStart(c.state.prevotes[k].submitBlock, Now(c, params), params.votePeriod);
      }
    }
  }

  lemma {:induction false} RunTells(genesis: Chain, params: Params, events: seq<Event>)
    requires params.votePeriod > 0 && Genesis(genesis)
    ensures LogTells(Run(genesis, params, events), params)
    decreases |events|
  {
    if events != [] {
      var front, e := events[..|events| - 1], events[|events| - 1];
      RunTells(genesis, params, front);
      match e
      case Deliver(_, _) => DeliverTells(Run(genesis, params, front), params, e);
      case NextBlock => NextBlockTells(Run(genesis, params, front), params);
    }
  }

  /** In every run a reveal is accepted exactly when it is sent for a validator by itself or the feeder it last named,
      and the last thing on record for that validator and denomination is a commitment of the preceding period to just
      this salt and price. */
  lemma {:induction false} RevealAcceptedExactly(genesis: Chain, params: Params, events: seq<Event>, vals: Validators,
          msg: Msg)
    requires params.votePeriod > 0 && Genesis(genesis) && genesis.state.feeders == map[] && msg.Vote?
    ensures var c := Run(genesis, params, events);
            Handle(c.state, params, c.height, vals, msg).Ok?
            <==> (&& (msg.feeder == msg.validator || msg.feeder == LastNamed(events, msg.validator))
                  && msg.validator in vals
                  && Pending(c.log, Key(msg.denom, msg.validator),
                             VoteHash(msg.salt, msg.price, msg.denom, msg.validator), Now(c, params) - 1))
  {
    var c := Run(genesis, params, events);
    var k := Key(msg.denom, msg.validator);
    RunTells(genesis, params, events);
    FeedersAreLastNamed(genesis, params, events, msg.validator);
    assert k in c.state.prevotes ==> StoredAsLogged(c, params, k);
  }

  /** A commitment needs the permission and a validator, naming a feeder a validator only. */
  lemma {:induction false} OthersAcceptedExactly(genesis: Chain, params: Params, events: seq<Event>, vals: Validators,
          msg: Msg)
    requires params.votePeriod > 0 && genesis.state.feeders == map[] && !msg.Vote?
    ensures var c := Run(genesis, params, events);
            Handle(c.state, params, c.height, vals, msg).Ok?
            <==> (if msg.DelegateFeeder? then msg.operator in vals
                  else msg.validator in vals
                       && (msg.feeder == msg.validator || msg.feeder == LastNamed(events, msg.validator)))
  {
    if msg.Prevote? {
      FeedersAreLastNamed(genesis, params, events, msg.validator);
    }
  }
}
