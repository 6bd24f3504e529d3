/**
 What the votes of x/budget decide: whose vote counts for what, which programs stay, and whose claims grow, over every
 run and in terms of the messages accepted and the tokens bonded.
 */
module BudgetVotes {
  import opened Wrappers
  import opened Sums
  import opened Coins
  import opened Epoch
  import opened BudgetKeys
  import opened Budget
  import Dec
  import Mint

  // ---------------------------------------------------------------------------
  // The power of a program's votes

  /** Bonded tokens of the validators that voted on a program in the given sense. */
  function Voters(votes: map<VoteKey, bool>, vals: Validators, id: nat, option: bool): map<Addr, int>
  {
    map v | v in vals && VoteKey(id, v) in votes && votes[VoteKey(id, v)] == option :: vals[v]
  }

  /** Bonded tokens for a program less those against it. */
  ghost function Support(votes: map<VoteKey, bool>, vals: Validators, id: nat): int
  {
    Total(Voters(votes, vals, id, true)) - Total(Voters(votes, vals, id, false))
  }

  lemma {:induction false} VotersStep(votes: map<VoteKey, bool>, vals: Validators, id: nat, option: bool, v: Addr)
    requires v in vals
    ensures Total(Voters(votes, vals, id, option))
         == Total(Voters(votes, vals - {v}, id, option))
            + (if VoteKey(id, v) in votes && votes[VoteKey(id, v)] == option then vals[v] else 0)
  {
    var all, rest := Voters(votes, vals, id, option), Voters(votes, vals - {v}, id, option);
    if VoteKey(id, v) in votes && votes[VoteKey(id, v)] == option {
      assert all - {v} == rest;
      TotalRemove(all, v);
    } else {
      assert all == rest;
    }
  }

  lemma {:induction false} LeaningsStep(votes: map<VoteKey, bool>, vals: Validators, id: nat, v: Addr)
    requires v in vals
    ensures VotePower(votes, vals, id)
         == VotePower(votes, vals - {v}, id)
            + (if VoteKey(id, v) in votes then Leaning(votes[VoteKey(id, v)], vals[v]) else 0)
  {
    var all, rest := Leanings(votes, vals, id), Leanings(votes, vals - {v}, id);
    if VoteKey(id, v) in votes {
      assert all - {v} == rest;
      TotalRemove(all, v);
    } else {
      assert all == rest;
    }
  }

  /** The power of a program is what is bonded for it less what is bonded against it. */
  lemma {:induction false} PowerIsSupport(votes: map<VoteKey, bool>, vals: Validators, id: nat)
    ensures VotePower(votes, vals, id) == Support(votes, vals, id)
    decreases vals
  {
    if vals == map[] {
      assert Leanings(votes, vals, id) == map[];
      assert Voters(votes, vals, id, true) == map[] && Voters(votes, vals, id, false) == map[];
    } else {
      var v :| v in vals;
      PowerIsSupport(votes, vals - {v}, id);
      LeaningsStep(votes, vals, id, v);
      VotersStep(votes, vals, id, true, v);
      VotersStep(votes, vals, id, false, v);
    }
  }

  // ---------------------------------------------------------------------------
  // Which programs stay

  /** A candidate whose voting period is over. */
  predicate IsDue(s: State, params: Params, id: nat)
  {
    IsCandidate(s, params, id) && VotingEndBlock(s.programs[id], params) <= s.mint.height
  }

  lemma {:induction false} OutsidersHaveNoPower(s: State, vals: Validators, ids: set<nat>, failing: set<nat>, id: nat)
    requires id !in failing
    ensures VotePower(Drop(s, vals, ids, failing).votes, vals, id) == VotePower(s.votes, vals, id)
  {
    assert Leanings(Drop(s, vals, ids, failing).votes, vals, id) == Leanings(s.votes, vals, id);
  }

  lemma {:induction false} DueIds(s: State, params: Params, id: nat)
    requires Inv(s, params)
    ensures id in Ids(Due(s, s.mint.height)) <==> IsDue(s, params, id)
  {
    assert IsDue(s, params, id) ==> EntryOf(s.programs[id], params) in Due(s, s.mint.height);
  }

  /** What ending the votes makes of a program. */
  lemma {:induction false} AfterVoting(s: State, params: Params, vals: Validators, bonded: int, id: nat)
    requires Inv(s, params)
    ensures var mid := EndVoting(s, params, vals, bonded);
            && (id in mid.programs
                <==> id in s.programs
                     && (IsDue(s, params, id)
                         ==> ClearsThreshold(VotePower(s.votes, vals, id), bonded, params.activeThreshold)))
            && (id in mid.programs ==> mid.programs[id] == s.programs[id])
            && (id in mid.programs ==> VotePower(mid.votes, vals, id) == VotePower(s.votes, vals, id))
            && (id in mid.programs
                ==> (IsCandidate(mid, params, id) <==> IsCandidate(s, params, id) && !IsDue(s, params, id)))
  {
    var ids := Ids(Due(s, s.mint.height)) * s.programs.Keys;
    var failing := Failing(s, vals, bonded, params.activeThreshold, ids);
    DueIds(s, params, id);
    EndVotingKeepsInv(s, params, vals, bonded);
    if id !in failing {
      OutsidersHaveNoPower(s, vals, ids, failing, id);
    }
  }

  /** What re-weighing makes of a program. */
  lemma {:induction false} AfterWeighing(s: State, params: Params, vals: Validators, bonded: int, id: nat)
    ensures var mid := Reweigh(s, params, vals, bonded);
            && (id in mid.programs
                <==> id in s.programs
                     && (!IsCandidate(s, params, id)
                         ==> ClearsThreshold(VotePower(s.votes, vals, id), bonded, params.legacyThreshold)))
            && (id in mid.programs ==> mid.programs[id] == s.programs[id])
            && (id in mid.programs ==> (IsCandidate(mid, params, id) <==> IsCandidate(s, params, id)))
  {
  }

  /** The end of a block weighs a program: the active ones at the end of a period. */
  predicate IsWeighed(s: State, params: Params, id: nat)
    requires params.votePeriod > 0
  {
    IsPeriodLastBlock(s.mint.height, params.votePeriod) && (IsDue(s, params, id) || !IsCandidate(s, params, id))
  }

  lemma {:induction false} AfterBlock(s: State, params: Params, vals: Validators, bonded: int, id: nat)
    requires params.votePeriod > 0 && Inv(s, params)
    ensures var after, power := EndBlock(s, params, vals, bonded), VotePower(s.votes, vals, id);
            && (id in after.programs
                <==> (&& id in s.programs
                      && (IsDue(s, params, id) ==> ClearsThreshold(power, bonded, params.activeThreshold))
                      && (IsWeighed(s, params, id) ==> ClearsThreshold(power, bonded, params.legacyThreshold))))
            && (id in after.programs ==> after.programs[id] == s.programs[id])
  {
    AfterVoting(s, params, vals, bonded, id);
    AfterWeighing(EndVoting(s, params, vals, bonded), params, vals, bonded, id);
  }

  lemma {:induction false} ClearsLeast(power: int, bonded: int, threshold: int, least: int)
    requires Dec.NearestEven(threshold * bonded, least)
    ensures ClearsThreshold(power, bonded, threshold) <==> power >= least
  {
    Dec.ChopUnique(threshold * bonded, least);
  }

  /** The end of a block drops a program exactly when it is due, or active at the end of a period, and the tokens
      bonded for it less those against it are fewer than the threshold's part of all, rounded half to even. */
  lemma {:induction false} KeptExactly(s: State, params: Params, vals: Validators, bonded: int, id: nat, active: int,
          legacy: int)
    requires params.votePeriod > 0 && Inv(s, params)
    requires Dec.NearestEven(params.activeThreshold * bonded, active)
    requires Dec.NearestEven(params.legacyThreshold * bonded, legacy)
    ensures id in EndBlock(s, params, vals, bonded).programs
       <==> (&& id in s.programs
             && (IsDue(s, params, id) ==> Support(s.votes, vals, id) >= active)
             && (IsWeighed(s, params, id) ==> Support(s.votes, vals, id) >= legacy))
  {
    PowerIsSupport(s.votes, vals, id);
    ClearsLeast(Support(s.votes, vals, id), bonded, params.activeThreshold, active);
    ClearsLeast(Support(s.votes, vals, id), bonded, params.legacyThreshold, legacy);
    AfterBlock(s, params, vals, bonded, id);
  }

  // ---------------------------------------------------------------------------
  // Whose claims grow

  /** The support of the active programs that an executor runs. */
  ghost function SupportOf(s: State, params: Params, votes: map<VoteKey, bool>, vals: Validators,
          r: Addr): map<nat, int>
  {
    map id | id in s.programs && !IsCandidate(s, params, id) && s.programs[id].executor == r ::
      Support(votes, vals, id)
  }

  lemma {:induction false} GrantedAt(claims: map<Addr, int>, programs: map<nat, Program>, powers: map<nat, int>,
          granted: set<nat>, r: Addr)
    ensures Get(Granted(claims, programs, powers, granted), r)
         == Get(claims, r) + Total(GrantTo(programs, powers, granted, r))
  {
    if forall id :: id in granted && id in programs ==> programs[id].executor != r {
      assert GrantTo(programs, powers, granted, r) == map[];
    }
  }

  lemma {:induction false} WeighingGrants(s: State, params: Params, vals: Validators, bonded: int, r: Addr)
    ensures var mid := Reweigh(s, params, vals, bonded);
            Get(mid.claims, r) == Get(s.claims, r) + Total(SupportOf(mid, params, s.votes, vals, r))
  {
    var mid, ids := Reweigh(s, params, vals, bonded), ActiveIds(s, params);
    var granted := ids - Failing(s, vals, bonded, params.legacyThreshold, ids);
    GrantedAt(s.claims, s.programs, Powers(s, vals), granted, r);
    var grants, support := GrantTo(s.programs, Powers(s, vals), granted, r), SupportOf(mid, params, s.votes, vals, r);
    forall id
      ensures (id in grants <==> id in support) && Get(grants, id) == Get(support, id)
    {
      AfterWeighing(s, params, vals, bonded, id);
      PowerIsSupport(s.votes, vals, id);
    }
    SameMap(grants, support);
  }

  lemma {:induction false} VotingKeepsSupport(s: State, params: Params, vals: Validators, bonded: int, id: nat)
    requires Inv(s, params) && id in EndVoting(s, params, vals, bonded).programs
    ensures Support(EndVoting(s, params, vals, bonded).votes, vals, id) == Support(s.votes, vals, id)
  {
    var mid := EndVoting(s, params, vals, bonded);
    AfterVoting(s, params, vals, bonded, id);
    PowerIsSupport(mid.votes, vals, id);
    PowerIsSupport(s.votes, vals, id);
  }

  lemma {:induction false} SameSupport(s: State, params: Params, before: map<VoteKey, bool>, after: map<VoteKey, bool>,
          vals: Validators, r: Addr)
    requires forall id :: id in s.programs ==> Support(after, vals, id) == Support(before, vals, id)
    ensures SupportOf(s, params, after, vals, r) == SupportOf(s, params, before, vals, r)
  {
  }

  lemma {:induction false} WeighedGrants(s: State, params: Params, vals: Validators, bonded: int, r: Addr)
    requires Inv(s, params)
    ensures var mid := EndVoting(s, params, vals, bonded);
            var after := Reweigh(mid, params, vals, bonded);
            Get(after.claims, r) == Get(s.claims, r) + Total(SupportOf(after, params, s.votes, vals, r))
  {
    var mid := EndVoting(s, params, vals, bonded);
    var after := Reweigh(mid, params, vals, bonded);
    WeighingGrants(mid, params, vals, bonded, r);
    forall id | id in after.programs
      ensures Support(mid.votes, vals, id) == Support(s.votes, vals, id)
    {
      AfterWeighing(mid, params, vals, bonded, id);
      VotingKeepsSupport(s, params, vals, bonded, id);
    }
    SameSupport(after, params, s.votes, mid.votes, vals, r);
  }

  /** At the last block of a period each claim grows by the support of the active programs its owner executes, among
      those that are kept; at other blocks no claim grows. */
  lemma {:induction false} ClaimsGrowBySupport(s: State, params: Params, vals: Validators, bonded: int, r: Addr)
    requires params.votePeriod > 0 && Inv(s, params)
    ensures var after := Decided(s, params, vals, bonded);
            Get(after.claims, r)
            == Get(s.claims, r)
               + if IsPeriodLastBlock(s.mint.height, params.votePeriod)
                 then Total(SupportOf(after, params, s.votes, vals, r)) else 0
  {
    WeighedGrants(s, params, vals, bonded, r);
  }

  // ---------------------------------------------------------------------------
  // Which votes are stored

  /** The end of the block tallies a program: it is due, or active at the end of a period. */
  predicate TalliedAt(s: State, params: Params, id: nat)
    requires params.votePeriod > 0
  {
    id in s.programs && (IsDue(s, params, id) || IsWeighed(s, params, id))
  }

  /** The option a voter last had accepted on a program, forgotten when the program is gone, and when it is tallied
      while the voter is no validator. */
  ghost function LastOption(c: Chain, params: Params, events: seq<Event>, k: VoteKey): Option<bool>
    requires params.votePeriod > 0
  {
    if events == [] || k.id !in Run(c, params, events).state.programs then None
    else
      var front := events[..|events| - 1];
      match events[|events| - 1]
      case Deliver(vals, Vote(id, voter, option)) =>
        if VoteKey(id, voter) == k && voter in vals then Some(option) else LastOption(c, params, front, k)
      case NextBlock(vals, _) =>
        if TalliedAt(Run(c, params, front).state, params, k.id) && k.voter !in vals then None
        else LastOption(c, params, front, k)
      case _ => LastOption(c, params, front, k)
  }

  function Stored(votes: map<VoteKey, bool>, k: VoteKey): Option<bool>
  {
    if k in votes then Some(votes[k]) else None
  }

  lemma {:induction false} VotesAfterVoting(s: State, params: Params, vals: Validators, bonded: int, k: VoteKey)
    requires Inv(s, params)
    ensures var mid := EndVoting(s, params, vals, bonded);
            Stored(mid.votes, k)
            == if k.id !in mid.programs || (IsDue(s, params, k.id) && k.voter !in vals) then None
               else Stored(s.votes, k)
  {
    DueIds(s, params, k.id);
  }

  lemma {:induction false} VotesAfterWeighing(s: State, params: Params, vals: Validators, bonded: int, k: VoteKey)
    requires Inv(s, params)
    ensures var mid := Reweigh(s, params, vals, bonded);
            Stored(mid.votes, k)
            == if k.id !in mid.programs || (!IsCandidate(s, params, k.id) && k.voter !in vals) then None
               else Stored(s.votes, k)
  {
  }

  lemma {:induction false} VotesAfterBlock(s: State, params: Params, vals: Validators, bonded: int, k: VoteKey)
    requires params.votePeriod > 0 && Inv(s, params)
    ensures var after := EndBlock(s, params, vals, bonded);
            Stored(after.votes, k)
            == if k.id !in after.programs || (TalliedAt(s, params, k.id) && k.voter !in vals) then None
               else Stored(s.votes, k)
  {
    var mid := EndVoting(s, params, vals, bonded);
    EndVotingKeepsInv(s, params, vals, bonded);
    AfterVoting(s, params, vals, bonded, k.id);
    VotesAfterVoting(s, params, vals, bonded, k);
    AfterWeighing(mid, params, vals, bonded, k.id);
    VotesAfterWeighing(mid, params, vals, bonded, k);
  }

  lemma {:induction false} VotesAfterMessage(s: State, params: Params, vals: Validators, msg: Msg, k: VoteKey)
    requires Inv(s, params) && Handle(s, params, vals, msg).Ok?
    ensures var after := Handle(s, params, vals, msg).value;
            Stored(after.votes, k)
            == if k.id !in after.programs then None
               else if msg.Vote? && VoteKey(msg.id, msg.voter) == k then Some(msg.option)
               else Stored(s.votes, k)
  {
  }

  /** In every run a stored vote is the option its voter last had accepted: none is turned, lost or invented. */
  lemma {:induction false} VotesAreLastOptions(c: Chain, params: Params, events: seq<Event>, k: VoteKey)
    requires params.votePeriod > 0 && Genesis(c)
    ensures Stored(Run(c, params, events).state.votes, k) == LastOption(c, params, events, k)
    decreases |events|
  {
    if events != [] {
      var front, e := events[..|events| - 1], events[|events| - 1];
      var s := Run(c, params, front).state;
      VotesAreLastOptions(c, params, front, k);
      BudgetSafety(c, params, front);
      BudgetSafety(c, params, events);
      match e
      case Deliver(vals, msg) =>
        if Handle(s, params, vals, msg).Ok? {
          VotesAfterMessage(s, params, vals, msg, k);
        }
      case NextBlock(vals, bonded) => VotesAfterBlock(s, params, vals, bonded, k);
      case Elsewhere(_) =>
    }
  }

  // ---------------------------------------------------------------------------
  // Submissions

  /** The program that was submitted under a number. */
  ghost function SubmittedAs(c: Chain, params: Params, events: seq<Event>, id: nat): Option<Program>
    requires params.votePeriod > 0
  {
    if events == [] then None
    else
      var front := events[..|events| - 1];
      var before, after := Run(c, params, front), Run(c, params, events);
      match events[|events| - 1]
      case Deliver(_, Submit(title, description, submitter, executor)) =>
        if after.submitted > before.submitted && id == after.submitted
          then Some(Program(id, title, description, submitter, executor, before.state.mint.height))
        else SubmittedAs(c, params, front, id)
      case _ => SubmittedAs(c, params, front, id)
  }

  lemma {:induction false} MessageKeepsPrograms(s: State, params: Params, vals: Validators, msg: Msg, id: nat)
    requires Inv(s, params) && Handle(s, params, vals, msg).Ok?
    ensures var after := Handle(s, params, vals, msg).value;
            && after.lastId == s.lastId + (if msg.Submit? then 1 else 0)
            && (id in after.programs ==>
                  if msg.Submit? && id == after.lastId
                  then after.programs[id]
                       == Program(id, msg.title, msg.description, msg.submitter, msg.executor, s.mint.height)
                  else id in s.programs && after.programs[id] == s.programs[id])
  {
  }

  /** In every run programs are numbered in the order in which they were submitted, and each stored one is what its
      submitter sent, with the height at which it did. */
  lemma {:induction false} ProgramsAreAsSubmitted(c: Chain, params: Params, events: seq<Event>, id: nat)
    requires params.votePeriod > 0 && Genesis(c)
    ensures var now := Run(c, params, events);
            && now.state.lastId == now.submitted
            && (id in now.state.programs ==> SubmittedAs(c, params, events, id) == Some(now.state.programs[id]))
    decreases |events|
  {
    if events != [] {
      var front, e := events[..|events| - 1], events[|events| - 1];
      var s := Run(c, params, front).state;
      ProgramsAreAsSubmitted(c, params, front, id);
      BudgetSafety(c, params, front);
      match e
      case Deliver(vals, msg) =>
        if Handle(s, params, vals, msg).Ok? {
          MessageKeepsPrograms(s, params, vals, msg, id);
        }
      case NextBlock(vals, bonded) =>
        EndBlockKeepsInv(s, params, vals, bonded);
        AfterBlock(s, params, vals, bonded, id);
      case Elsewhere(_) =>
    }
  }

  function Sender(msg: Msg): Addr
  {
    match msg
    case Submit(_, _, submitter, _) => submitter
    case Withdraw(_, submitter) => submitter
    case Vote(_, voter, _) => voter
  }

  /** A deposit is taken from the submitter and given back to the submitter; no other balance moves. */
  lemma {:induction false} DepositsMove(s: State, params: Params, vals: Validators, msg: Msg, a: Addr, d: Denom)
    requires Handle(s, params, vals, msg).Ok?
    ensures Get(Row(Handle(s, params, vals, msg).value.mint.balances, a), d)
         == Get(Row(s.mint.balances, a), d)
            + (if a == Sender(msg) && d == params.depositDenom then Returned(s, params, msg) else 0)
  {
    match msg
    case Submit(_, _, submitter, _) =>
      CreditRow(s.mint.balances, submitter, params.depositDenom, -params.deposit, a, d);
    case Withdraw(_, submitter) =>
      CreditRow(s.mint.balances, submitter, params.depositDenom, params.deposit, a, d);
    case Vote(_, _, _) =>
  }

  // ---------------------------------------------------------------------------
  // How long a program is a candidate

  /** Stored programs are candidates up to the end of the block at which their voting period is over. */
  ghost predicate Timely(s: State, params: Params)
  {
    forall id :: id in s.programs
      ==> (IsCandidate(s, params, id) <==> s.mint.height <= s.programs[id].submitBlock + params.votePeriod)
  }

  lemma {:induction false} MessageKeepsTime(s: State, params: Params, vals: Validators, msg: Msg)
    requires Inv(s, params) && Timely(s, params) && Handle(s, params, vals, msg).Ok?
    ensures Timely(Handle(s, params, vals, msg).value, params)
  {
    var after := Handle(s, params, vals, msg).value;
    forall id | id in after.programs
      ensures IsCandidate(after, params, id)
         <==> after.mint.height <= after.programs[id].submitBlock + params.votePeriod
    {
      MessageKeepsPrograms(s, params, vals, msg, id);
    }
  }

  lemma {:induction false} BlockKeepsTime(s: State, params: Params, vals: Validators, bonded: int, after: State)
    requires params.votePeriod > 0 && Inv(s, params) && Timely(s, params)
    requires after == EndBlock(s, params, vals, bonded)
    ensures Timely(after.(mint := after.mint.(height := s.mint.height + 1)), params)
  {
    EndBlockKeepsInv(s, params, vals, bonded);
    forall id | id in after.programs
      ensures IsCandidate(after, params, id)
         <==> s.mint.height + 1 <= after.programs[id].submitBlock + params.votePeriod
    {
      AfterBlock(s, params, vals, bonded, id);
      DueIds(s, params, id);
    }
  }

  /** In every run a stored program is a candidate exactly until block `submitBlock + votePeriod` has ended. */
  lemma {:induction false} CandidateUntil(c: Chain, params: Params, events: seq<Event>)
    requires params.votePeriod > 0 && Genesis(c)
    ensures Timely(Run(c, params, events).state, params)
    decreases |events|
  {
    if events != [] {
      var front, e := events[..|events| - 1], events[|events| - 1];
      var s := Run(c, params, front).state;
      CandidateUntil(c, params, front);
      BudgetSafety(c, params, front);
      match e
      case Deliver(vals, msg) =>
        if Handle(s, params, vals, msg).Ok? {
          MessageKeepsTime(s, params, vals, msg);
        }
      case NextBlock(vals, bonded) => BlockKeepsTime(s, params, vals, bonded, EndBlock(s, params, vals, bonded));
      case Elsewhere(_) =>
    }
  }
}
