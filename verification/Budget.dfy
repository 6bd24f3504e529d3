/**
 Budget programs of x/budget: submission against a deposit, votes, the candidate queue, and the decisions taken
 at the end of a block, as a state machine with what every run of it keeps.
 */
module Budget {
  import opened Wrappers
  import opened Sums
  import opened Coins
  import opened Epoch
  import opened BudgetKeys
  import Dec
  import Mint

  type Validators = map<Addr, nat>

  datatype Params = Params(activeThreshold: int, legacyThreshold: int, votePeriod: nat, depositDenom: Denom,
      deposit: int)

  datatype Program = Program(id: nat, title: string, description: string, submitter: Addr, executor: Addr,
      submitBlock: nat)

  datatype VoteKey = VoteKey(id: nat, voter: Addr)

  /** `lastId` is the number of the newest program, zero while there was none. */
  datatype State = State(
    programs: map<nat, Program>,
    votes: map<VoteKey, bool>,
    queue: set<Candidate>,
    claims: map<Addr, int>,
    lastId: nat,
    mint: Mint.State)

  datatype Msg =
    | Submit(title: string, description: string, submitter: Addr, executor: Addr)
    | Withdraw(id: nat, submitter: Addr)
    | Vote(id: nat, voter: Addr, option: bool)

  datatype Error = ProgramNotFound | InvalidSubmitter | NotAValidator | DepositFailed | RefundFailed

  function VotingEndBlock(p: Program, params: Params): nat { p.submitBlock + params.votePeriod }

  function EntryOf(p: Program, params: Params): Candidate { Candidate(VotingEndBlock(p, params), p.id) }

  predicate IsCandidate(s: State, params: Params, id: nat)
  {
    id in s.programs && Candidate(VotingEndBlock(s.programs[id], params), id) in s.queue
  }

  // ---------------------------------------------------------------------------
  // Messages

  function WithoutVotesFor(votes: map<VoteKey, bool>, ids: set<nat>): map<VoteKey, bool>
  {
    map k | k in votes && k.id !in ids :: votes[k]
  }

  ghost function Handle(s: State, params: Params, vals: Validators, msg: Msg): Result<State, Error>
  {
    match msg
    case Submit(title, description, submitter, executor) =>
      (match Mint.BurnCoin(s.mint, submitter, params.depositDenom, params.deposit)
       case Err(_) => Err(DepositFailed)
       case Ok(mint) =>
         var id := s.lastId + 1;
         var p := Program(id, title, description, submitter, executor, s.mint.height);
         Ok(s.(programs := s.programs[id := p], queue := s.queue + {EntryOf(p, params)}, lastId := id, mint := mint)))
    case Withdraw(id, submitter) =>
      if id !in s.programs then Err(ProgramNotFound)
      else if s.programs[id].submitter != submitter then Err(InvalidSubmitter)
      else
        var gone := s.(programs := s.programs - {id}, votes := WithoutVotesFor(s.votes, {id}));
        if !IsCandidate(s, params, id) then Ok(gone)
        else
          (match Mint.MintCoin(s.mint, submitter, params.depositDenom, params.deposit)
           case Err(_) => Err(RefundFailed)
           case Ok(mint) =>
             Ok(gone.(queue := s.queue - {Candidate(VotingEndBlock(s.programs[id], params), id)}, mint := mint)))
    case Vote(id, voter, option) =>
      if id !in s.programs then Err(ProgramNotFound)
      else if voter !in vals then Err(NotAValidator)
      else Ok(s.(votes := s.votes[VoteKey(id, voter) := option]))
  }

  /** What a message that succeeds gives back of the deposits. */
  function Returned(s: State, params: Params, msg: Msg): int
  {
    match msg
    case Submit(_, _, _, _) => -params.deposit
    case Withdraw(id, _) => if IsCandidate(s, params, id) then params.deposit else 0
    case Vote(_, _, _) => 0
  }

  // ---------------------------------------------------------------------------
  // The end of a block

  function Leaning(option: bool, bondSize: int): int { if option then bondSize else -bondSize }

  /** Bonded tokens of each validator that voted on a program, counted for or against. */
  function Leanings(votes: map<VoteKey, bool>, vals: Validators, id: nat): map<Addr, int>
  {
    map v | v in vals && VoteKey(id, v) in votes :: Leaning(votes[VoteKey(id, v)], vals[v])
  }

  ghost function VotePower(votes: map<VoteKey, bool>, vals: Validators, id: nat): int
  {
    Total(Leanings(votes, vals, id))
  }

  predicate ClearsThreshold(power: int, bonded: int, threshold: int)
  {
    power >= Dec.RoundInt(Dec.MulInt(threshold, bonded))
  }

  /** The programs among `ids` whose votes do not clear the threshold. */
  ghost function Failing(s: State, vals: Validators, bonded: int, threshold: int, ids: set<nat>): set<nat>
  {
    set id | id in ids && id in s.programs && !ClearsThreshold(VotePower(s.votes, vals, id), bonded, threshold)
  }

  /** Of the programs in `ids`, deletes the failing with their votes, and of the others the votes of anybody who is
      no longer a validator. */
  function Drop(s: State, vals: Validators, ids: set<nat>, failing: set<nat>): State
  {
    s.(programs := s.programs - failing,
       votes := map k | k in s.votes
           && (k.id in ids && k.id in s.programs ==> k.id !in failing && k.voter in vals) :: s.votes[k])
  }

  /** Decides the programs in `ids` by their votes. */
  ghost function Decide(s: State, vals: Validators, bonded: int, threshold: int, ids: set<nat>): State
  {
    Drop(s, vals, ids, Failing(s, vals, bonded, threshold, ids))
  }

  function Due(s: State, height: nat): set<Candidate>
  {
    set c | c in s.queue && c.endBlock <= height
  }

  function Ids(cs: set<Candidate>): set<nat> { set c | c in cs :: c.id }

  /** Programs outside the candidate queue. */
  function ActiveIds(s: State, params: Params): set<nat>
  {
    set id | id in s.programs && !IsCandidate(s, params, id)
  }

  /** First, candidates whose voting period is over become active or are dropped. */
  ghost function EndVoting(s: State, params: Params, vals: Validators, bonded: int): State
  {
    var ids := Ids(Due(s, s.mint.height)) * s.programs.Keys;
    var decided := Decide(s, vals, bonded, params.activeThreshold, ids);
    decided.(queue := set c | c in s.queue && !(c.id in ids && c.endBlock == VotingEndBlock(s.programs[c.id], params)))
  }

  /** Second, at the last block of a period, active programs are weighted and the unpopular dropped. */
  ghost function Reweigh(s: State, params: Params, vals: Validators, bonded: int): State
  {
    var ids := ActiveIds(s, params);
    var decided := Decide(s, vals, bonded, params.legacyThreshold, ids);
    var granted := ids - Failing(s, vals, bonded, params.legacyThreshold, ids);
    decided.(claims := Granted(s.claims, s.programs, Powers(s, vals), granted))
  }

  ghost function Powers(s: State, vals: Validators): map<nat, int>
  {
    map id | id in s.programs :: VotePower(s.votes, vals, id)
  }

  function GrantTo(programs: map<nat, Program>, powers: map<nat, int>, granted: set<nat>, r: Addr): map<nat, int>
  {
    map id | id in granted && id in programs && programs[id].executor == r :: Get(powers, id)
  }

  /** Each granted program adds its vote power to the claim of its executor. */
  ghost function Granted(claims: map<Addr, int>, programs: map<nat, Program>, powers: map<nat, int>,
          granted: set<nat>): map<Addr, int>
  {
    map r | r in claims.Keys + (set id | id in granted && id in programs :: programs[id].executor) ::
      Get(claims, r) + Total(GrantTo(programs, powers, granted, r))
  }

  ghost function Decided(s: State, params: Params, vals: Validators, bonded: int): State
    requires params.votePeriod > 0
  {
    var decided := EndVoting(s, params, vals, bonded);
    if IsPeriodLastBlock(s.mint.height, params.votePeriod) then Reweigh(decided, params, vals, bonded) else decided
  }

  /** Third, at the last block of an epoch, the claims are paid and cleared. */
  ghost function EndBlock(s: State, params: Params, vals: Validators, bonded: int): State
    requires params.votePeriod > 0
  {
    var decided := Decided(s, params, vals, bonded);
    if IsPeriodLastBlock(s.mint.height, BLOCKS_PER_EPOCH) then decided.(claims := map[]) else decided
  }

  // ---------------------------------------------------------------------------
  // Runs

  /** `Elsewhere` is anything else that moves coins within a block: transfers, swaps, payouts. */
  datatype Event = Deliver(vals: Validators, msg: Msg) | NextBlock(vals: Validators, bonded: int)
      | Elsewhere(mint: Mint.State)

  /** The chain, with how many programs were submitted, how many withdrawn while candidates, and by how much the total
      of the deposit coin was changed elsewhere. */
  datatype Chain = Chain(state: State, submitted: nat, refunded: nat, elsewhere: int)

  ghost function Exec(c: Chain, params: Params, e: Event): Chain
    requires params.votePeriod > 0
  {
    match e
    case Deliver(vals, msg) =>
      (match Handle(c.state, params, vals, msg)
       case Err(_) => c
       case Ok(s) =>
         Chain(s,
               c.submitted + (if msg.Submit? then 1 else 0),
               c.refunded + (if msg.Withdraw? && IsCandidate(c.state, params, msg.id) then 1 else 0),
               c.elsewhere))
    case Elsewhere(mint) =>
      if mint.height != c.state.mint.height then c
      else
        var moved := BookTotal(mint.balances, params.depositDenom)
            - BookTotal(c.state.mint.balances, params.depositDenom);
        c.(state := c.state.(mint := mint), elsewhere := c.elsewhere + moved)
    case NextBlock(vals, bonded) =>
      var s := EndBlock(c.state, params, vals, bonded);
      c.(state := s.(mint := s.mint.(height := s.mint.height + 1)))
  }

  ghost function Run(c: Chain, params: Params, events: seq<Event>): Chain
    requires params.votePeriod > 0
  {
    if events == [] then c else Exec(Run(c, params, events[..|events| - 1]), params, events[|events| - 1])
  }

  predicate Genesis(c: Chain)
  {
    && c.state.programs == map[] && c.state.votes == map[] && c.state.queue == {} && c.state.lastId == 0
    && c.state.claims == map[]
    && c.submitted == 0 && c.refunded == 0 && c.elsewhere == 0
  }

  /** Queue entries name stored programs with the matching end block, which has not passed; votes name stored
      programs; ids are the numbers handed out. */
  ghost predicate Inv(s: State, params: Params)
  {
    && (forall c :: c in s.queue ==>
          c.id in s.programs && c == EntryOf(s.programs[c.id], params) && c.endBlock >= s.mint.height)
    && (forall k :: k in s.votes ==> k.id in s.programs)
    && (forall id :: id in s.programs ==> s.programs[id].id == id && 0 < id <= s.lastId)
  }

  lemma {:induction false} SubmitKeepsInv(s: State, params: Params, vals: Validators, msg: Msg)
    requires Inv(s, params) && msg.Submit? && Handle(s, params, vals, msg).Ok?
    ensures Inv(Handle(s, params, vals, msg).value, params)
  {
  }

  lemma {:induction false} WithdrawKeepsInv(s: State, params: Params, vals: Validators, msg: Msg)
    requires Inv(s, params) && msg.Withdraw? && Handle(s, params, vals, msg).Ok?
    ensures Inv(Handle(s, params, vals, msg).value, params)
  {
    if !IsCandidate(s, params, msg.id) {
      assert forall c :: c in s.queue ==> c.id != msg.id;
    }
  }

  lemma {:induction false} HandleKeepsInv(s: State, params: Params, vals: Validators, msg: Msg)
    requires params.votePeriod > 0 && Inv(s, params) && Handle(s, params, vals, msg).Ok?
    ensures Inv(Handle(s, params, vals, msg).value, params)
    ensures Handle(s, params, vals, msg).value.mint.height == s.mint.height
  {
    match msg
    case Submit(_, _, _, _) => SubmitKeepsInv(s, params, vals, msg);
    case Withdraw(_, _) => WithdrawKeepsInv(s, params, vals, msg);
    case Vote(_, _, _) =>
  }

  /** Deciding programs that are not candidates keeps the invariant. */
  lemma {:induction false} DecideKeepsInv(s: State, params: Params, vals: Validators, bonded: int, threshold: int,
          ids: set<nat>)
    requires Inv(s, params) && forall c :: c in s.queue ==> c.id !in ids
    ensures Inv(Decide(s, vals, bonded, threshold, ids), params)
  {
  }

  /** Due candidates leave the queue; after that all others end later. */
  lemma {:induction false} EndVotingKeepsInv(s: State, params: Params, vals: Validators, bonded: int)
    requires Inv(s, params)
    ensures Inv(EndVoting(s, params, vals, bonded), params)
    ensures EndVoting(s, params, vals, bonded).queue == s.queue - Due(s, s.mint.height)
    ensures EndVoting(s, params, vals, bonded).mint == s.mint
  {
    var ids := Ids(Due(s, s.mint.height));
    assert ids <= s.programs.Keys;
    assert ids * s.programs.Keys == ids;
    var s' := EndVoting(s, params, vals, bonded);
    forall c | c in s.queue
      ensures c in s'.queue <==> c !in Due(s, s.mint.height)
    {
      assert c !in Due(s, s.mint.height) ==> forall d :: d in Due(s, s.mint.height) ==> d.id != c.id;
    }
    var failing := Failing(s, vals, bonded, params.activeThreshold, ids);
    assert forall c :: c in s'.queue ==> c.id !in failing;
  }

  lemma {:induction false} ReweighKeepsInv(s: State, params: Params, vals: Validators, bonded: int)
    requires Inv(s, params)
    ensures Inv(Reweigh(s, params, vals, bonded), params)
    ensures Reweigh(s, params, vals, bonded).queue == s.queue && Reweigh(s, params, vals, bonded).mint == s.mint
  {
    assert forall c :: c in s.queue ==> c.id !in ActiveIds(s, params);
    DecideKeepsInv(s, params, vals, bonded, params.legacyThreshold, ActiveIds(s, params));
  }

  lemma {:induction false} DecidedKeepsInv(s: State, params: Params, vals: Validators, bonded: int)
    requires params.votePeriod > 0 && Inv(s, params)
    ensures var s' := Decided(s, params, vals, bonded);
            && Inv(s', params) && s'.mint == s.mint && s'.lastId == s.lastId
            && s'.queue == s.queue - Due(s, s.mint.height)
  {
    EndVotingKeepsInv(s, params, vals, bonded);
    var ended := EndVoting(s, params, vals, bonded);
    if IsPeriodLastBlock(s.mint.height, params.votePeriod) {
      ReweighKeepsInv(ended, params, vals, bonded);
    }
  }

  lemma {:induction false} ClaimsDoNotMatter(s: State, params: Params, claims: map<Addr, int>)
    requires Inv(s, params)
    ensures Inv(s.(claims := claims), params)
  {
  }

  lemma {:induction false} EndBlockKeepsInv(s: State, params: Params, vals: Validators, bonded: int)
    requires params.votePeriod > 0 && Inv(s, params)
    ensures var s' := EndBlock(s, params, vals, bonded);
            && Inv(s', params) && s'.mint == s.mint && s'.lastId == s.lastId
            && s'.queue == s.queue - Due(s, s.mint.height)
  {
    DecidedKeepsInv(s, params, vals, bonded);
    ClaimsDoNotMatter(Decided(s, params, vals, bonded), params, map[]);
  }

  lemma {:induction false} ExecKeepsInv(c: Chain, params: Params, e: Event)
    requires params.votePeriod > 0 && Inv(c.state, params)
    ensures Inv(Exec(c, params, e).state, params)
  {
    match e
    case Deliver(vals, msg) =>
      if Handle(c.state, params, vals, msg).Ok? {
        HandleKeepsInv(c.state, params, vals, msg);
      }
    case NextBlock(vals, bonded) =>
      EndBlockKeepsInv(c.state, params, vals, bonded);
    case Elsewhere(_) =>
  }

  /** The invariant holds at every moment of every run from an empty genesis. */
  lemma {:induction false} BudgetSafety(c: Chain, params: Params, events: seq<Event>)
    requires params.votePeriod > 0 && Genesis(c)
    ensures Inv(Run(c, params, events).state, params)
    decreases |events|
  {
    if events != [] {
      BudgetSafety(c, params, events[..|events| - 1]);
      ExecKeepsInv(Run(c, params, events[..|events| - 1]), params, events[|events| - 1]);
    }
  }

  // ---------------------------------------------------------------------------
  // The life of a program

  datatype Status = Unborn | Candidacy | Active | Gone

  function StatusOf(s: State, params: Params, id: nat): Status
  {
    if id == 0 || id > s.lastId then Unborn
    else if id !in s.programs then Gone
    else if IsCandidate(s, params, id) then Candidacy
    else Active
  }

  /** Which step takes a program from one status to another. */
  ghost predicate Transition(s: State, params: Params, e: Event, id: nat, before: Status, after: Status)
  {
    match (before, after)
    case (Unborn, Candidacy) => e.Deliver? && e.msg.Submit?
    case (Candidacy, Candidacy) => id in s.programs
        && (e.NextBlock? ==> s.mint.height < VotingEndBlock(s.programs[id], params))
    case (Candidacy, Active) => e.NextBlock? && id in s.programs
        && s.mint.height == VotingEndBlock(s.programs[id], params)
    case (Candidacy, Gone) =>
      && id in s.programs
      && ((e.Deliver? && e.msg == Withdraw(id, s.programs[id].submitter))
          || (e.NextBlock? && s.mint.height == VotingEndBlock(s.programs[id], params)))
    case (Active, Gone) =>
      && id in s.programs
      && ((e.Deliver? && e.msg == Withdraw(id, s.programs[id].submitter)) || e.NextBlock?)
    case (_, _) => before == after
  }

  lemma {:induction false} DeliverTransition(c: Chain, params: Params, e: Event, id: nat)
    requires params.votePeriod > 0 && Inv(c.state, params) && e.Deliver?
    ensures Transition(c.state, params, e, id, StatusOf(c.state, params, id),
            StatusOf(Exec(c, params, e).state, params, id))
  {
    var s := c.state;
    if Handle(s, params, e.vals, e.msg).Ok? {
      var s' := Handle(s, params, e.vals, e.msg).value;
      if e.msg.Submit? {
        assert forall x :: x in s.queue ==> x.id <= s.lastId;
      }
    }
  }

  lemma {:induction false} NextBlockTransition(c: Chain, params: Params, e: Event, id: nat)
    requires params.votePeriod > 0 && Inv(c.state, params) && e.NextBlock?
    ensures Transition(c.state, params, e, id, StatusOf(c.state, params, id),
            StatusOf(Exec(c, params, e).state, params, id))
  {
    var s := c.state;
    EndBlockKeepsInv(s, params, e.vals, e.bonded);
    EndVotingKeepsInv(s, params, e.vals, e.bonded);
    var s' := EndBlock(s, params, e.vals, e.bonded);
    KeepsCandidates(s, params, e.vals, e.bonded, id);
    assert id in s'.programs ==> id in s.programs && s'.programs[id] == s.programs[id];
  }

  /** A candidate that is not due survives the end of the block untouched. */
  lemma {:induction false} KeepsCandidates(s: State, params: Params, vals: Validators, bonded: int, id: nat)
    requires params.votePeriod > 0 && Inv(s, params)
    ensures var s' := EndBlock(s, params, vals, bonded);
            IsCandidate(s, params, id) && VotingEndBlock(s.programs[id], params) > s.mint.height ==> id in s'.programs
  {
    if IsCandidate(s, params, id) && VotingEndBlock(s.programs[id], params) > s.mint.height {
      var mid := EndVoting(s, params, vals, bonded);
      EndVotingKeepsInv(s, params, vals, bonded);
      assert id !in Ids(Due(s, s.mint.height)) by {
        assert forall c :: c in s.queue && c.id == id ==> c == EntryOf(s.programs[id], params);
      }
      assert id in mid.programs && IsCandidate(mid, params, id);
      assert id !in ActiveIds(mid, params);
    }
  }

  /** Every step of every program is one of the allowed transitions: a candidate leaves the queue exactly at its
      voting end block unless its submitter withdraws it first, and a number once gone stays gone. */
  lemma {:induction false} Lifecycle(c: Chain, params: Params, events: seq<Event>, e: Event, id: nat)
    requires params.votePeriod > 0 && Genesis(c)
    ensures var now := Run(c, params, events);
            Transition(now.state, params, e, id, StatusOf(now.state, params, id),
                StatusOf(Exec(now, params, e).state, params, id))
  {
    BudgetSafety(c, params, events);
    var now := Run(c, params, events);
    match e
    case Deliver(_, _) => DeliverTransition(now, params, e, id);
    case NextBlock(_, _) => NextBlockTransition(now, params, e, id);
    case Elsewhere(_) =>
  }

  /** Numbers are never reused. */
  lemma {:induction false} GoneForever(c: Chain, params: Params, events: seq<Event>, id: nat)
    requires params.votePeriod > 0 && Inv(c.state, params) && StatusOf(c.state, params, id) == Gone
    ensures StatusOf(Run(c, params, events).state, params, id) == Gone && Inv(Run(c, params, events).state, params)
    decreases |events|
  {
    if events != [] {
      GoneForever(c, params, events[..|events| - 1], id);
      var now, e := Run(c, params, events[..|events| - 1]), events[|events| - 1];
      ExecKeepsInv(now, params, e);
      match e
      case Deliver(_, _) => DeliverTransition(now, params, e, id);
      case NextBlock(_, _) => NextBlockTransition(now, params, e, id);
      case Elsewhere(_) =>
    }
  }

  // ---------------------------------------------------------------------------
  // Claims

  /** Bonded tokens are never negative. */
  predicate Bonded(events: seq<Event>)
  {
    forall i :: 0 <= i < |events| && events[i].NextBlock? ==> events[i].bonded >= 0
  }

  /** A program that clears a threshold that is not negative has a power that is not negative. */
  lemma {:induction false} ClearedIsNonNegative(power: int, bonded: nat, threshold: nat)
    requires ClearsThreshold(power, bonded, threshold)
    ensures power >= 0
  {
    Dec.TimesMonotone(0, threshold, bonded);
    Dec.ChopMonotone(0, threshold * bonded);
    Dec.ChopExact(0);
  }

  lemma {:induction false} GrantsNonNegative(claims: map<Addr, int>, programs: map<nat, Program>,
          powers: map<nat, int>, granted: set<nat>)
    requires NonNegative(claims) && forall id :: id in granted && id in programs ==> Get(powers, id) >= 0
    ensures NonNegative(Granted(claims, programs, powers, granted))
  {
    forall r
      ensures Total(GrantTo(programs, powers, granted, r)) >= 0
    {
      TotalNonNegative(GrantTo(programs, powers, granted, r));
    }
  }

  lemma {:induction false} ReweighKeepsClaims(s: State, params: Params, vals: Validators, bonded: nat)
    requires NonNegative(s.claims) && params.legacyThreshold >= 0
    ensures NonNegative(Reweigh(s, params, vals, bonded).claims)
  {
    var ids := ActiveIds(s, params);
    var granted := ids - Failing(s, vals, bonded, params.legacyThreshold, ids);
    forall id | id in granted && id in s.programs
      ensures Get(Powers(s, vals), id) >= 0
    {
      ClearedIsNonNegative(VotePower(s.votes, vals, id), bonded, params.legacyThreshold);
    }
    GrantsNonNegative(s.claims, s.programs, Powers(s, vals), granted);
  }

  lemma {:induction false} DecidedKeepsClaims(s: State, params: Params, vals: Validators, bonded: nat)
    requires NonNegative(s.claims) && params.legacyThreshold >= 0 && params.votePeriod > 0
    ensures NonNegative(Decided(s, params, vals, bonded).claims)
  {
    if IsPeriodLastBlock(s.mint.height, params.votePeriod) {
      ReweighKeepsClaims(EndVoting(s, params, vals, bonded), params, vals, bonded);
    }
  }

  /** In every run from genesis no claim is ever negative, as long as the legacy threshold is not. */
  lemma {:induction false} ClaimsStayNonNegative(c: Chain, params: Params, events: seq<Event>)
    requires params.votePeriod > 0 && params.legacyThreshold >= 0 && Genesis(c) && Bonded(events)
    ensures NonNegative(Run(c, params, events).state.claims)
    decreases |events|
  {
    if events != [] {
      var front, e := events[..|events| - 1], events[|events| - 1];
      ClaimsStayNonNegative(c, params, front);
      var now := Run(c, params, front);
      match e
      case NextBlock(vals, bonded) => DecidedKeepsClaims(now.state, params, vals, bonded);
      case Deliver(vals, msg) =>
        assert Handle(now.state, params, vals, msg).Ok?
               ==> Handle(now.state, params, vals, msg).value.claims == now.state.claims;
      case Elsewhere(_) =>
    }
  }

  // ---------------------------------------------------------------------------
  // Deposits

  ghost function DepositsHeld(c: Chain, params: Params): int
  {
    BookTotal(c.state.mint.balances, params.depositDenom) + (c.submitted - c.refunded) * params.deposit - c.elsewhere
  }

  lemma {:induction false} SubmitKeepsDeposits(c: Chain, params: Params, e: Event)
    requires params.votePeriod > 0 && e.Deliver? && e.msg.Submit? && Handle(c.state, params, e.vals, e.msg).Ok?
    ensures DepositsHeld(Exec(c, params, e), params) == DepositsHeld(c, params)
  {
    CreditTotal(c.state.mint.balances, e.msg.submitter, map[params.depositDenom := -params.deposit],
        params.depositDenom);
    Dec.OneMore(c.submitted - c.refunded, params.deposit);
  }

  lemma {:induction false} WithdrawKeepsDeposits(c: Chain, params: Params, e: Event)
    requires params.votePeriod > 0 && e.Deliver? && e.msg.Withdraw? && Handle(c.state, params, e.vals, e.msg).Ok?
    ensures DepositsHeld(Exec(c, params, e), params) == DepositsHeld(c, params)
  {
    CreditTotal(c.state.mint.balances, e.msg.submitter, map[params.depositDenom := params.deposit],
        params.depositDenom);
    Dec.OneMore(c.submitted - c.refunded - 1, params.deposit);
  }

  lemma {:induction false} BlockKeepsDeposits(c: Chain, params: Params, e: Event)
    requires params.votePeriod > 0 && e.NextBlock?
    ensures DepositsHeld(Exec(c, params, e), params) == DepositsHeld(c, params)
  {
    var c' := Exec(c, params, e);
    assert c'.state.mint.balances == c.state.mint.balances && c' == c.(state := c'.state);
  }

  lemma {:induction false} ExecKeepsDeposits(c: Chain, params: Params, e: Event)
    requires params.votePeriod > 0
    ensures DepositsHeld(Exec(c, params, e), params) == DepositsHeld(c, params)
  {
    match e
    case NextBlock(_, _) => BlockKeepsDeposits(c, params, e);
    case Elsewhere(_) =>
    case Deliver(vals, msg) =>
      if Handle(c.state, params, vals, msg).Ok? {
        match msg
        case Submit(_, _, _, _) => SubmitKeepsDeposits(c, params, e);
        case Withdraw(_, _) => WithdrawKeepsDeposits(c, params, e);
        case Vote(_, _, _) =>
      }
  }

  /** Over every run, apart from what moves elsewhere, the coins burnt for deposits are the deposit times the programs
      submitted and not withdrawn while candidates: a withdrawal of an active program refunds nothing. */
  lemma {:induction false} DepositConservation(c: Chain, params: Params, events: seq<Event>)
    requires params.votePeriod > 0
    ensures DepositsHeld(Run(c, params, events), params) == DepositsHeld(c, params)
    decreases |events|
  {
    if events != [] {
      DepositConservation(c, params, events[..|events| - 1]);
      ExecKeepsDeposits(Run(c, params, events[..|events| - 1]), params, events[|events| - 1]);
    }
  }
}
