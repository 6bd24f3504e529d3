/** A run of the chain to the end of an epoch whose payout panics (x/budget/end_blocker.go). */
module BudgetPanic {
  import opened Wrappers
  import opened Sums
  import opened Coins
  import opened Epoch
  import opened BudgetKeys
  import opened Budget
  import opened BudgetPayout
  import opened BudgetKeeper
  import Dec
  import Ledger
  import Market
  import Mint
  import Treasury

  const SUBMITTER: Addr := Addr("submitter")
  const HOLDER: Addr := Addr("holder")
  const VALIDATOR: Addr := Addr("validator")

  /** The default thresholds and deposit, with a vote period of two blocks. */
  const DEPOSIT: int := 100_000_000
  const PARAMS: Params := Params(Dec.ONE / 10, 0, 2, SDR, DEPOSIT)

  /** The validator set while the program is voted on. */
  const VALS: Validators := map[VALIDATOR := 10]

  // ---------------------------------------------------------------------------
  // Luna: a thousand on the first day, five more on the seventh

  const BALANCES: Book := map[HOLDER := map[LUNA := 1000], SUBMITTER := map[SDR := DEPOSIT]]

  /** The first and today's issuance of Luna. */
  ghost predicate LunaAt(m: Mint.State, first: int, now: int)
  {
    && Mint.Sound(m) && Mint.IsTracked(m, LUNA) && Mint.Current(m, LUNA) == now
    && forall total :: Mint.Lookup(m.issuance, total, LUNA, 0) == first
  }

  /** Somebody looks at the issuance at genesis. */
  const TABLE: Mint.Table := map[Mint.Snap(LUNA, 0) := 1000]

  lemma {:induction false} TableLookup(total: int, day: nat)
    ensures Mint.Lookup(TABLE, total, LUNA, day) == 1000
    decreases day
  {
    if day > 0 {
      TableLookup(total, day - 1);
    }
  }

  lemma {:induction false} LunaAtFirst(height: nat)
    ensures LunaAt(Mint.State(height, BALANCES, TABLE), 1000, 1000)
    ensures Get(Row(BALANCES, SUBMITTER), SDR) == DEPOSIT
  {
    TableLookup(BookTotal(BALANCES, LUNA), Day(height));
  }

  lemma {:induction false} LunaMinted(m: Mint.State, first: int, now: int)
    requires LunaAt(m, first, now) && Day(m.height) > 0
    ensures Mint.MintCoin(m, HOLDER, LUNA, 5).Ok?
    ensures var m' := Mint.MintCoin(m, HOLDER, LUNA, 5).value;
            && LunaAt(m', first, now + 5) && m'.height == m.height
            && Get(Row(m'.balances, SUBMITTER), SDR) == Get(Row(m.balances, SUBMITTER), SDR)
  {
    Ledger.MintFits(m, HOLDER, LUNA, 5);
    Ledger.MintEvolves(m, HOLDER, LUNA, 5);
    assert Mint.Keeps(m, Mint.MintCoin(m, HOLDER, LUNA, 5).value, LUNA);
    CreditRow(m.balances, HOLDER, LUNA, 5, SUBMITTER, SDR);
  }

  lemma {:induction false} LunaKept(m: Mint.State, first: int, now: int)
    requires LunaAt(m, first, now) && Day(m.height) > 0 && !Mint.IsTracked(m, SDR)
             && Get(Row(m.balances, SUBMITTER), SDR) == DEPOSIT
    ensures Mint.BurnCoin(m, SUBMITTER, SDR, DEPOSIT).Ok?
    ensures LunaAt(Mint.BurnCoin(m, SUBMITTER, SDR, DEPOSIT).value, first, now)
    ensures Mint.BurnCoin(m, SUBMITTER, SDR, DEPOSIT).value.height == m.height
  {
    Ledger.BurnEvolves(m, SUBMITTER, SDR, DEPOSIT);
    assert Mint.Keeps(m, Mint.BurnCoin(m, SUBMITTER, SDR, DEPOSIT).value, LUNA);
  }

  /** The seigniorage of epoch zero at its last block. */
  lemma {:induction false} LunaSeigniorage(m: Mint.State, first: int, now: int)
    requires LunaAt(m, first, now) && m.height == BLOCKS_PER_EPOCH - 1 && first <= now
    ensures Mint.Seigniorage(m, 0) == now - first
  {
    assert Day(m.height) == 6 && Mint.LastDay(m.height, 0) == 6 && Mint.FirstDay(m.height, 0) == 0;
  }

  // ---------------------------------------------------------------------------
  // The program

  const PROGRAM: Program := Program(1, "title", "description", SUBMITTER, SUBMITTER, BLOCKS_PER_EPOCH - 4)

  function Voting(m: Mint.State): State
  {
    State(map[1 := PROGRAM], map[VoteKey(1, VALIDATOR) := true], {Candidate(BLOCKS_PER_EPOCH - 2, 1)}, map[], 1, m)
  }

  function Accepted(m: Mint.State): State { Voting(m).(queue := {}) }

  /** With nothing due and nothing active there is nothing to decide. */
  lemma {:induction false} NothingToDecide(s: State, params: Params, vals: Validators, bonded: int)
    requires params.votePeriod > 0 && Due(s, s.mint.height) == {} && ActiveIds(s, params) == {} && s.claims == map[]
    ensures EndBlock(s, params, vals, bonded) == s
  {
    DecideNothing(s, vals, bonded, params.activeThreshold);
    assert Ids(Due(s, s.mint.height)) * s.programs.Keys == {};
    assert EndVoting(s, params, vals, bonded) == s;
    DecideNothing(s, vals, bonded, params.legacyThreshold);
    assert {} - Failing(s, vals, bonded, params.legacyThreshold, {}) == {};
    NothingGranted(s.claims, s.programs, Powers(s, vals));
  }

  lemma {:induction false} VotingBlock(m: Mint.State)
    requires m.height < BLOCKS_PER_EPOCH - 2
    ensures EndBlock(Voting(m), PARAMS, VALS, 10) == Voting(m)
  {
    assert ActiveIds(Voting(m), PARAMS) == {};
    NothingToDecide(Voting(m), PARAMS, VALS, 10);
  }

  lemma {:induction false} PowerForIt(votes: map<VoteKey, bool>)
    requires votes == map[VoteKey(1, VALIDATOR) := true]
    ensures VotePower(votes, VALS, 1) == 10 && VotePower(votes, map[], 1) == 0
  {
    var leanings := Leanings(votes, VALS, 1);
    assert leanings == map[VALIDATOR := 10];
    TotalRemove(leanings, VALIDATOR);
    assert leanings - {VALIDATOR} == map[];
    assert Leanings(votes, map[], 1) == map[];
  }

  lemma {:induction false} NoneFailing(s: State, vals: Validators, bonded: int, threshold: int)
    requires ClearsThreshold(VotePower(s.votes, vals, 1), bonded, threshold)
    ensures Failing(s, vals, bonded, threshold, {1}) == {}
  {
  }

  lemma {:induction false} TenPercent(bonded: int)
    ensures ClearsThreshold(10, 10, Dec.ONE / 10) && ClearsThreshold(0, bonded, 0)
  {
    Dec.ChopExact(1);
    Dec.ChopExact(0);
  }

  lemma {:induction false} DueNow(m: Mint.State)
    requires m.height == BLOCKS_PER_EPOCH - 2
    ensures Ids(Due(Voting(m), m.height)) * Voting(m).programs.Keys == {1}
  {
    var entry := Candidate(BLOCKS_PER_EPOCH - 2, 1);
    assert entry in Due(Voting(m), m.height) && entry.id == 1;
    assert 1 in Ids(Due(Voting(m), m.height));
  }

  lemma {:induction false} Decision(m: Mint.State)
    ensures Decide(Voting(m), VALS, 10, PARAMS.activeThreshold, {1}) == Voting(m)
  {
    var s := Voting(m);
    PowerForIt(s.votes);
    TenPercent(10);
    NoneFailing(s, VALS, 10, PARAMS.activeThreshold);
    assert Drop(s, VALS, {1}, {}).votes == s.votes;
    assert s.programs - {} == s.programs;
  }

  lemma {:induction false} VotingEnds(m: Mint.State)
    requires m.height == BLOCKS_PER_EPOCH - 2
    ensures EndVoting(Voting(m), PARAMS, VALS, 10) == Accepted(m)
  {
    DueNow(m);
    Decision(m);
    assert EndVoting(Voting(m), PARAMS, VALS, 10).queue == {};
  }

  /** At its end block the program has all of the power and becomes active. */
  lemma {:induction false} AcceptingBlock(m: Mint.State)
    requires m.height == BLOCKS_PER_EPOCH - 2
    ensures EndBlock(Voting(m), PARAMS, VALS, 10) == Accepted(m)
  {
    VotingEnds(m);
    NoPeriodEnds(Voting(m), PARAMS, VALS, 10);
  }

  /** Within a period and an epoch only expired candidates are decided. */
  lemma {:induction false} NoPeriodEnds(s: State, params: Params, vals: Validators, bonded: int)
    requires params.votePeriod > 0
    requires !IsPeriodLastBlock(s.mint.height, params.votePeriod) && !IsPeriodLastBlock(s.mint.height, BLOCKS_PER_EPOCH)
    ensures EndBlock(s, params, vals, bonded) == EndVoting(s, params, vals, bonded)
  {
  }

  /** A claim of nothing is still a claim. */
  lemma {:induction false} NothingClaimed(programs: map<nat, Program>, powers: map<nat, int>)
    requires programs == map[1 := PROGRAM] && Get(powers, 1) == 0
    ensures Granted(map[], programs, powers, {1}) == map[SUBMITTER := 0]
  {
    var granted := GrantTo(programs, powers, {1}, SUBMITTER);
    assert granted == map[1 := 0];
    TotalRemove(granted, 1);
    assert granted - {1} == map[];
    assert programs[1].executor == SUBMITTER;
    assert Granted(map[], programs, powers, {1}).Keys == {SUBMITTER};
  }

  /** A block later the validator is gone. The program keeps its place, for the threshold is zero, and claims nothing.
      */
  lemma {:induction false} LegacyBlock(m: Mint.State, bonded: int)
    requires m.height == BLOCKS_PER_EPOCH - 1
    ensures Decided(Accepted(m), PARAMS, map[], bonded).claims == map[SUBMITTER := 0]
  {
    var s := Accepted(m);
    NothingDue(s, m, bonded);
    assert ActiveIds(s, PARAMS) == {1};
    PowerForIt(s.votes);
    TenPercent(bonded);
    PeriodEnds(s, PARAMS, map[], bonded, s);
    ReweighedClaims(s, bonded);
  }

  lemma {:induction false} PeriodEnds(s: State, params: Params, vals: Validators, bonded: int, ended: State)
    requires params.votePeriod > 0 && IsPeriodLastBlock(s.mint.height, params.votePeriod)
    requires ended == EndVoting(s, params, vals, bonded)
    ensures Decided(s, params, vals, bonded) == Reweigh(ended, params, vals, bonded)
  {
  }

  lemma {:induction false} ReweighedClaims(s: State, bonded: int)
    requires s.programs == map[1 := PROGRAM] && s.claims == map[] && ActiveIds(s, PARAMS) == {1}
    requires VotePower(s.votes, map[], 1) == 0 && ClearsThreshold(0, bonded, 0)
    ensures Reweigh(s, PARAMS, map[], bonded).claims == map[SUBMITTER := 0]
  {
    NoneFailing(s, map[], bonded, 0);
    assert {1} - {} == {1};
    NothingClaimed(s.programs, Powers(s, map[]));
  }

  lemma {:induction false} NothingDue(s: State, m: Mint.State, bonded: int)
    requires s == Accepted(m)
    ensures EndVoting(s, PARAMS, map[], bonded) == s
  {
    assert Ids(Due(s, m.height)) * s.programs.Keys == {};
    DecideNothing(s, map[], bonded, PARAMS.activeThreshold);
  }

  // ---------------------------------------------------------------------------
  // The payout

  /** With all claims zero the division by their sum panics, as long as there is anything to pay out. */
  lemma {:induction false} PayoutPanics(m: Mint.State, weight: int, prices: Market.Prices)
    requires LunaAt(m, 1000, 1005) && m.height == BLOCKS_PER_EPOCH - 1 && weight < Dec.ONE
    ensures PayoutOf(map[SUBMITTER := 0], m, map[0 := weight], prices) == None
  {
    LunaSeigniorage(m, 1000, 1005);
    assert GetEpoch(m.height) == 0;
    var claims: map<Addr, int> := map[SUBMITTER := 0];
    TotalRemove(claims, SUBMITTER);
    assert claims - {SUBMITTER} == map[];
    assert SUBMITTER in claims && SUBMITTER in claims.Keys;
    assert forall amount :: !Payable(claims, claims.Keys, 0, amount);
  }

  // ---------------------------------------------------------------------------
  // The run

  const GENESIS: Chain := Chain(State(map[], map[], {}, map[], 0, Mint.State(0, BALANCES, map[])), 0, 0, 0)

  /** A chain without programs. */
  function Before(m: Mint.State): State { State(map[], map[], {}, map[], 0, m) }

  lemma {:induction false} FirstLook()
    ensures Mint.Fill(map[], BookTotal(BALANCES, LUNA), LUNA, 0) == TABLE
  {
    var luna := Column(BALANCES, LUNA);
    assert luna == map[HOLDER := 1000, SUBMITTER := 0];
    TotalRemove(luna, HOLDER);
    TotalRemove(luna - {HOLDER}, SUBMITTER);
    assert luna - {HOLDER} - {SUBMITTER} == map[];
  }

  predicate Quiet(events: seq<Event>) { forall i :: 0 <= i < |events| ==> events[i].NextBlock? }

  /** Blocks pass over a chain without programs. */
  lemma {:induction false} QuietRun(c: Chain, m: Mint.State, events: seq<Event>)
    requires Quiet(events) && c.state == Before(m)
    ensures Run(c, PARAMS, events).state == Before(m.(height := m.height + |events|))
    decreases |events|
  {
    if events != [] {
      var front, e := events[..|events| - 1], events[|events| - 1];
      QuietRun(c, m, front);
      NothingToDecide(Run(c, PARAMS, front).state, PARAMS, e.vals, e.bonded);
    }
  }

  lemma {:induction false} RunAppend(c: Chain, a: seq<Event>, b: seq<Event>)
    ensures Run(c, PARAMS, a + b) == Run(Run(c, PARAMS, a), PARAMS, b)
    decreases |b|
  {
    if b == [] {
      assert a + b == a;
    } else {
      assert (a + b)[..|a + b| - 1] == a + b[..|b| - 1];
      RunAppend(c, a, b[..|b| - 1]);
    }
  }

  lemma {:induction false} RunThree(c: Chain, e: Event, f: Event, g: Event)
    ensures Run(c, PARAMS, [e, f, g]) == Exec(Exec(Exec(c, PARAMS, e), PARAMS, f), PARAMS, g)
  {
    RunOneMore(c, [], e);
    RunOneMore(c, [e], f);
    RunOneMore(c, [e, f], g);
    assert [] + [e] == [e] && [e] + [f] == [e, f] && [e, f] + [g] == [e, f, g];
  }

  lemma {:induction false} RunOneMore(c: Chain, events: seq<Event>, e: Event)
    ensures Run(c, PARAMS, events + [e]) == Exec(Run(c, PARAMS, events), PARAMS, e)
  {
    assert (events + [e])[..|events|] == events;
  }

  /** Luna is minted, and the program submitted and voted for. */
  ghost function Proposal(minted: Mint.State): seq<Event>
  {
    [Elsewhere(minted),
     Deliver(VALS, Submit("title", "description", SUBMITTER, SUBMITTER)),
     Deliver(VALS, Vote(1, VALIDATOR, true))]
  }

  lemma {:induction false} Proposed(c: Chain, m: Mint.State, minted: Mint.State) returns (burnt: Mint.State)
    requires c.state == Before(m) && m.height == minted.height == BLOCKS_PER_EPOCH - 4
    requires LunaAt(minted, 1000, 1005) && !Mint.IsTracked(minted, SDR)
             && Get(Row(minted.balances, SUBMITTER), SDR) == DEPOSIT
    ensures Run(c, PARAMS, Proposal(minted)).state == Voting(burnt)
    ensures LunaAt(burnt, 1000, 1005) && burnt.height == BLOCKS_PER_EPOCH - 4
  {
    LunaKept(minted, 1000, 1005);
    burnt := Mint.BurnCoin(minted, SUBMITTER, SDR, DEPOSIT).value;
    var e, f, g := Proposal(minted)[0], Proposal(minted)[1], Proposal(minted)[2];
    RunThree(c, e, f, g);
    var c1 := Exec(c, PARAMS, e);
    assert c1.state == Before(minted);
    var c2 := Exec(c1, PARAMS, f);
    assert c2.state == Voting(burnt).(votes := map[]);
    assert Exec(c2, PARAMS, g).state == Voting(burnt);
  }

  /** Three blocks up to the last one of the epoch. */
  const THREE_BLOCKS: seq<Event> := [NextBlock(VALS, 10), NextBlock(VALS, 10), NextBlock(VALS, 10)]

  lemma {:induction false} ThreeBlocks(c: Chain, m: Mint.State)
    requires c.state == Voting(m) && m.height == BLOCKS_PER_EPOCH - 4
    ensures Run(c, PARAMS, THREE_BLOCKS).state == Accepted(m.(height := BLOCKS_PER_EPOCH - 1))
  {
    var e := NextBlock(VALS, 10);
    RunThree(c, e, e, e);
    VotingBlock(m);
    var c1 := Exec(c, PARAMS, e);
    assert c1.state == Voting(m.(height := BLOCKS_PER_EPOCH - 3));
    VotingBlock(m.(height := BLOCKS_PER_EPOCH - 3));
    var c2 := Exec(c1, PARAMS, e);
    assert c2.state == Voting(m.(height := BLOCKS_PER_EPOCH - 2));
    AcceptingBlock(m.(height := BLOCKS_PER_EPOCH - 2));
  }

  /** The morning of the seventh day, and the mint that then takes place. */
  lemma {:induction false} SeventhDay() returns (m: Mint.State, minted: Mint.State)
    ensures m == Mint.State(BLOCKS_PER_EPOCH - 4, BALANCES, TABLE) && Mint.MintCoin(m, HOLDER, LUNA, 5) == Ok(minted)
    ensures LunaAt(minted, 1000, 1005) && !Mint.IsTracked(minted, SDR)
            && Get(Row(minted.balances, SUBMITTER), SDR) == DEPOSIT
    ensures minted.height == m.height
  {
    m := Mint.State(BLOCKS_PER_EPOCH - 4, BALANCES, TABLE);
    LunaAtFirst(BLOCKS_PER_EPOCH - 4);
    LunaMinted(m, 1000, 1000);
    minted := Mint.MintCoin(m, HOLDER, LUNA, 5).value;
    Mint.ChangeTracksOwn(m.(balances := Credit(m.balances, HOLDER, map[LUNA := 5])), LUNA, 5, SDR);
  }

  lemma {:induction false} SameDayHeight(m: Mint.State, height: nat)
    requires LunaAt(m, 1000, 1005) && Day(m.height) == Day(height)
    ensures LunaAt(m.(height := height), 1000, 1005)
  {
  }

  /** The first look, and six quiet days. */
  lemma {:induction false} SixDays(look: Event, idle: seq<Event>)
    requires look == Elsewhere(Mint.State(0, BALANCES, TABLE)) && Quiet(idle) && |idle| == BLOCKS_PER_EPOCH - 4
    ensures Run(GENESIS, PARAMS, [look] + idle).state == Before(Mint.State(BLOCKS_PER_EPOCH - 4, BALANCES, TABLE))
  {
    RunOneMore(GENESIS, [], look);
    assert [] + [look] == [look];
    var looked := Run(GENESIS, PARAMS, [look]);
    assert looked.state == Before(Mint.State(0, BALANCES, TABLE));
    QuietRun(looked, Mint.State(0, BALANCES, TABLE), idle);
    RunAppend(GENESIS, [look], idle);
  }

  /** The state in which the payout panics. */
  ghost predicate Panics(s: State, bonded: int, prices: Market.Prices)
  {
    && IsPeriodLastBlock(s.mint.height, BLOCKS_PER_EPOCH)
    && PayoutOf(Decided(s, PARAMS, map[], bonded).claims, s.mint, map[0 := Treasury.DEFAULT_REWARD_WEIGHT], prices)
       == None
  }

  lemma {:induction false} ClaimsPanic(s: State, claims: map<Addr, int>, bonded: int, prices: Market.Prices)
    requires IsPeriodLastBlock(s.mint.height, BLOCKS_PER_EPOCH) && Decided(s, PARAMS, map[], bonded).claims == claims
    requires PayoutOf(claims, s.mint, map[0 := Treasury.DEFAULT_REWARD_WEIGHT], prices) == None
    ensures Panics(s, bonded, prices)
  {
  }

  lemma {:induction false} AcceptedPanics(s: State, m: Mint.State, bonded: int, prices: Market.Prices)
    requires s == Accepted(m) && LunaAt(m, 1000, 1005) && m.height == BLOCKS_PER_EPOCH - 1
    ensures Panics(s, bonded, prices)
  {
    LegacyBlock(m, bonded);
    PayoutPanics(m, Treasury.DEFAULT_REWARD_WEIGHT, prices);
    ClaimsPanic(s, map[SUBMITTER := 0], bonded, prices);
  }

  /** The state at the last block of the epoch, with the program accepted. */
  lemma {:induction false} RunToTheEnd(idle: seq<Event>)
    returns (look: Event, minted: Mint.State, s: State, last: Mint.State)
    requires Quiet(idle) && |idle| == BLOCKS_PER_EPOCH - 4
    ensures look == Elsewhere(Mint.State(0, BALANCES, TABLE))
    ensures Mint.MintCoin(Run(GENESIS, PARAMS, [look] + idle).state.mint, HOLDER, LUNA, 5) == Ok(minted)
    ensures s == Run(GENESIS, PARAMS, [look] + idle + Proposal(minted) + THREE_BLOCKS).state == Accepted(last)
    ensures LunaAt(last, 1000, 1005) && last.height == BLOCKS_PER_EPOCH - 1
  {
    look := Elsewhere(Mint.State(0, BALANCES, TABLE));
    SixDays(look, idle);
    var quiet := [look] + idle;
    var c := Run(GENESIS, PARAMS, quiet);
    var m;
    m, minted := SeventhDay();
    last := VotedThrough(c, m, minted, Proposal(minted), THREE_BLOCKS);
    RunAppend(GENESIS, quiet, Proposal(minted));
    RunAppend(GENESIS, quiet + Proposal(minted), THREE_BLOCKS);
    s := Run(GENESIS, PARAMS, quiet + Proposal(minted) + THREE_BLOCKS).state;
  }

  lemma {:induction false} VotedThrough(c: Chain, m: Mint.State, minted: Mint.State, proposal: seq<Event>,
          blocks: seq<Event>)
    returns (last: Mint.State)
    requires c.state == Before(m) && m.height == minted.height == BLOCKS_PER_EPOCH - 4
    requires LunaAt(minted, 1000, 1005) && !Mint.IsTracked(minted, SDR)
             && Get(Row(minted.balances, SUBMITTER), SDR) == DEPOSIT
    requires proposal == Proposal(minted) && blocks == THREE_BLOCKS
    ensures Run(Run(c, PARAMS, proposal), PARAMS, blocks).state == Accepted(last)
    ensures LunaAt(last, 1000, 1005) && last.height == BLOCKS_PER_EPOCH - 1
  {
    var burnt := Proposed(c, m, minted);
    var voted := Run(c, PARAMS, proposal);
    assert voted.state == Voting(burnt);
    ThreeBlocks(voted, burnt);
    last := AtTheEnd(burnt);
  }

  lemma {:induction false} AtTheEnd(m: Mint.State) returns (last: Mint.State)
    requires LunaAt(m, 1000, 1005) && m.height == BLOCKS_PER_EPOCH - 4
    ensures last == m.(height := BLOCKS_PER_EPOCH - 1) && LunaAt(last, 1000, 1005)
  {
    last := m.(height := BLOCKS_PER_EPOCH - 1);
    SameDayHeight(m, BLOCKS_PER_EPOCH - 1);
  }

  /** From a genesis with nothing but balances, and under the default thresholds: Luna is looked at on the first day,
      six days pass, five Luna are minted, as many as the default cap allows in a day, and a program is submitted,
      voted for and accepted. Then its only voter stops being a validator. At the end of the epoch the program is kept
      with a claim of zero, and the payout of the seigniorage panics, whatever the prices. */
  lemma {:induction false} PayoutCanPanic(idle: seq<Event>, bonded: int, prices: Market.Prices)
    returns (look: Event, minted: Mint.State, s: State)
    requires Quiet(idle) && |idle| == BLOCKS_PER_EPOCH - 4
    ensures Genesis(GENESIS)
    ensures look == Elsewhere(Mint.State(0, BALANCES, Mint.Fill(map[], BookTotal(BALANCES, LUNA), LUNA, 0)))
    ensures Mint.MintCoin(Run(GENESIS, PARAMS, [look] + idle).state.mint, HOLDER, LUNA, 5) == Ok(minted)
    ensures s == Run(GENESIS, PARAMS, [look] + idle + Proposal(minted) + THREE_BLOCKS).state
    ensures Panics(s, bonded, prices)
  {
    FirstLook();
    var last;
    look, minted, s, last := RunToTheEnd(idle);
    AcceptedPanics(s, last, bonded, prices);
  }
}
