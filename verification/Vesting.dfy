/**
 Vesting accounts of types/graded_account.go and types/lazy_graded_account.go. Both kinds of schedule are lists of
 pieces: a graded piece vests at once at its cliff, a lazy piece evenly between its start and its end. The account
 logic, which the repository repeats for each kind, is the same.
 */
module Vesting {
  import opened Wrappers
  import opened Sums
  import opened Coins
  import Dec

  datatype Piece = Cliff(cliff: int, ratio: int) | Linear(start: int, end: int, ratio: int)

  datatype VestingSchedule = VestingSchedule(denom: Denom, pieces: seq<Piece>)

  // ---------------------------------------------------------------------------
  // Ratios

  predicate ValidPiece(p: Piece)
  {
    match p
    case Cliff(cliff, ratio) => cliff >= 0 && ratio > 0
    case Linear(start, end, ratio) => start >= 0 && end >= start && ratio > 0
  }

  /** The part of a piece vested at a time. */
  function VestedPart(p: Piece, t: int): int
  {
    match p
    case Cliff(cliff, ratio) => if t >= cliff then ratio else 0
    case Linear(start, end, ratio) =>
      if t < start then 0
      else if t < end then Dec.QuoInt(Dec.MulInt(ratio, t - start), end - start)
      else ratio
  }

  function SumRatio(ps: seq<Piece>): int
  {
    if ps == [] then 0 else SumRatio(ps[..|ps| - 1]) + ps[|ps| - 1].ratio
  }

  function VestedRatio(ps: seq<Piece>, t: int): int
  {
    if ps == [] then 0 else VestedRatio(ps[..|ps| - 1], t) + VestedPart(ps[|ps| - 1], t)
  }

  predicate AllValid(ps: seq<Piece>)
  {
    forall i :: 0 <= i < |ps| ==> ValidPiece(ps[i])
  }

  predicate Valid(vs: VestingSchedule)
  {
    AllValid(vs.pieces) && SumRatio(vs.pieces) == Dec.ONE
  }

  /** `GetVestedRatio`. */
  method GetVestedRatio(vs: VestingSchedule, t: int) returns (sumRatio: int)
    ensures sumRatio == VestedRatio(vs.pieces, t)
  {
    sumRatio := 0;
    for i := 0 to |vs.pieces|
      invariant sumRatio == VestedRatio(vs.pieces[..i], t)
    {
      assert vs.pieces[..i + 1][..i] == vs.pieces[..i];
      match vs.pieces[i] {
        case Cliff(cliff, ratio) =>
          if t >= cliff {
            sumRatio := sumRatio + ratio;
          }
        case Linear(start, end, ratio) =>
          if t < start {
            continue;
          }
          var part := ratio;
          if t < end {
            part := Dec.QuoInt(Dec.MulInt(ratio, t - start), end - start);
          }
          sumRatio := sumRatio + part;
      }
    }
    assert vs.pieces[..|vs.pieces|] == vs.pieces;
  }

  /** `IsValid`. */
  method IsValid(vs: VestingSchedule) returns (valid: bool)
    ensures valid == Valid(vs)
  {
    var sumRatio := 0;
    for i := 0 to |vs.pieces|
      invariant sumRatio == SumRatio(vs.pieces[..i]) && AllValid(vs.pieces[..i])
    {
      assert vs.pieces[..i + 1][..i] == vs.pieces[..i];
      if !ValidPiece(vs.pieces[i]) {
        return false;
      }
      sumRatio := sumRatio + vs.pieces[i].ratio;
    }
    assert vs.pieces[..|vs.pieces|] == vs.pieces;
    return sumRatio == Dec.ONE;
  }

  lemma {:induction false} LinearPart(ratio: nat, elapsed: nat, span: nat)
    requires elapsed <= span && span > 0
    ensures 0 <= ratio * elapsed / span <= ratio
    ensures elapsed == span ==> ratio * elapsed / span == ratio
  {
    assert ratio * elapsed <= ratio * span by {
      assert ratio * (span - elapsed) >= 0;
    }
    Dec.DivMonotone(ratio * elapsed, ratio * span, span);
    Dec.DivUnique(ratio * span, span, ratio);
    Dec.DivNonNegative(ratio * elapsed, span);
  }

  lemma {:induction false} PartBounds(p: Piece, t: int)
    requires ValidPiece(p)
    ensures 0 <= VestedPart(p, t) <= p.ratio
  {
    match p
    case Cliff(_, _) =>
    case Linear(start, end, ratio) =>
      if start <= t < end {
        LinearPart(ratio, t - start, end - start);
      }
  }

  lemma {:induction false} PartMonotone(p: Piece, t: int, u: int)
    requires ValidPiece(p) && t <= u
    ensures VestedPart(p, t) <= VestedPart(p, u)
  {
    PartBounds(p, t);
    PartBounds(p, u);
    match p
    case Cliff(_, _) =>
    case Linear(start, end, ratio) =>
      if start <= t && u < end {
        LinearMonotone(ratio, t - start, u - start, end - start);
      }
  }

  lemma {:induction false} LinearMonotone(ratio: nat, a: nat, b: nat, span: nat)
    requires a <= b && span > 0
    ensures ratio * a / span <= ratio * b / span
  {
    assert ratio * a <= ratio * b by {
      assert ratio * (b - a) >= 0;
    }
    Dec.DivMonotone(ratio * a, ratio * b, span);
  }

  predicate AllOver(ps: seq<Piece>, t: int)
  {
    forall i :: 0 <= i < |ps| ==> t >= (match ps[i] case Cliff(c, _) => c case Linear(_, e, _) => e)
  }

  /** The vested ratio grows with time between nothing and everything, and is everything once all pieces are over. */
  lemma {:induction false} RatioOverTime(ps: seq<Piece>, t: int, u: int)
    requires AllValid(ps) && t <= u
    ensures 0 <= VestedRatio(ps, t) <= VestedRatio(ps, u) <= SumRatio(ps)
    ensures AllOver(ps, t) ==> VestedRatio(ps, t) == SumRatio(ps)
    decreases |ps|
  {
    if ps != [] {
      var front, p := ps[..|ps| - 1], ps[|ps| - 1];
      RatioOverTime(front, t, u);
      PartBounds(p, t);
      PartBounds(p, u);
      PartMonotone(p, t, u);
    }
  }

  // ---------------------------------------------------------------------------
  // Amounts

  /** The vested part of an amount, rounded half to even. */
  function VestedAmount(amount: int, ratio: int): int
  {
    Dec.RoundInt(Dec.Mul(Dec.FromInt(amount), ratio))
  }

  lemma {:induction false} VestedAmountMonotone(amount: nat, r: int, q: int)
    requires 0 <= r <= q <= Dec.ONE
    ensures 0 <= VestedAmount(amount, r) <= VestedAmount(amount, q) <= amount
    ensures q == Dec.ONE ==> VestedAmount(amount, q) == amount
  {
    Dec.MulFromInt(amount, r);
    Dec.MulFromInt(amount, q);
    Dec.TimesMonotone(0, r, amount);
    Dec.TimesMonotone(r, q, amount);
    Dec.TimesMonotone(q, Dec.ONE, amount);
    Dec.ChopMonotone(amount * r, amount * q);
    Dec.ChopMonotone(amount * q, amount * Dec.ONE);
    Dec.ChopMonotone(0, amount * r);
    Dec.ChopExact(amount);
    Dec.ChopExact(0);
  }

  /** The first schedule for a denomination. */
  function FindSchedule(schedules: seq<VestingSchedule>, d: Denom): Option<VestingSchedule>
  {
    if schedules == [] then None
    else if schedules[0].denom == d then Some(schedules[0])
    else FindSchedule(schedules[1..], d)
  }

  /** What of the original amount of a denomination has vested: all of it where there is no schedule. */
  function Vested(original: Coins, schedules: seq<VestingSchedule>, d: Denom, t: int): int
  {
    match FindSchedule(schedules, d)
    case None => Get(original, d)
    case Some(vs) => VestedAmount(Get(original, d), VestedRatio(vs.pieces, t))
  }

  function StillVesting(original: Coins, schedules: seq<VestingSchedule>, d: Denom, t: int): int
  {
    Get(original, d) - Vested(original, schedules, d, t)
  }

  predicate AllSchedulesValid(schedules: seq<VestingSchedule>)
  {
    forall i :: 0 <= i < |schedules| ==> Valid(schedules[i])
  }

  lemma {:induction false} FoundIsValid(schedules: seq<VestingSchedule>, d: Denom)
    requires AllSchedulesValid(schedules)
    ensures FindSchedule(schedules, d).Some? ==> Valid(FindSchedule(schedules, d).value)
    decreases |schedules|
  {
    if schedules != [] {
      FoundIsValid(schedules[1..], d);
    }
  }

  /** For valid schedules the vested amount never decreases, lies between zero and the original, and reaches the
      original once everything is over. */
  lemma {:induction false} VestedOverTime(original: Coins, schedules: seq<VestingSchedule>, d: Denom, t: int, u: int)
    requires AllSchedulesValid(schedules) && NonNegative(original) && t <= u
    ensures 0 <= Vested(original, schedules, d, t) <= Vested(original, schedules, d, u) <= Get(original, d)
    ensures var found := FindSchedule(schedules, d);
            found.None? || AllOver(found.value.pieces, t) ==> Vested(original, schedules, d, t) == Get(original, d)
  {
    FoundIsValid(schedules, d);
    match FindSchedule(schedules, d)
    case None =>
    case Some(vs) =>
      RatioOverTime(vs.pieces, t, u);
      VestedAmountMonotone(Get(original, d), VestedRatio(vs.pieces, t), VestedRatio(vs.pieces, u));
  }

  // ---------------------------------------------------------------------------
  // Accounts over time

  /** An account: its coins, what it has delegated, and, to state the law, all it ever received and spent. */
  datatype Account = Account(
    original: Coins,
    schedules: seq<VestingSchedule>,
    coins: Coins,
    delegatedVesting: Coins,
    delegatedFree: Coins,
    received: Coins,
    spent: Coins,
    now: int)

  datatype Coin = Coin(denom: Denom, amount: int)

  datatype Event =
    | Receive(coin: Coin)
    | Spend(coin: Coin)
    | Delegate(amount: seq<Coin>)
    | Wait(seconds: nat)

  function Locked(a: Account, d: Denom): int
  {
    StillVesting(a.original, a.schedules, d, a.now)
  }

  /** `min((BC + DV) - V, BC)`. */
  function Spendable(coins: int, delegatedVesting: int, vesting: int): int
  {
    Dec.Min(coins + delegatedVesting - vesting, coins)
  }

  function SpendableOf(a: Account, d: Denom): int
  {
    Spendable(Get(a.coins, d), Get(a.delegatedVesting, d), Locked(a, d))
  }

  /** `spendableCoins` would form a negative coin: it goes through the coins the account holds, and an amount of zero is
      no coin. */
  ghost predicate NegativeCoin(a: Account)
  {
    exists d :: Get(a.coins, d) != 0 && SpendableOf(a, d) < 0
  }

  /** `min(max(V - DV, 0), D)`: the part of a delegation that is taken from vesting coins. */
  function FromVesting(vesting: int, delegatedVesting: int, amount: int): int
  {
    Dec.Min(Dec.Max(vesting - delegatedVesting, 0), amount)
  }

  /** One coin of a delegation: refused if it is zero or more than the account has, otherwise taken out of the
      account, first as vesting, then as free. */
  function TrackCoin(a: Account, c: Coin): Option<Account>
  {
    if c.amount <= 0 || Get(a.coins, c.denom) < c.amount then None
    else
      var x := FromVesting(Locked(a, c.denom), Get(a.delegatedVesting, c.denom), c.amount);
      Some(a.(coins := Plus(a.coins, c.denom, -c.amount),
              delegatedVesting := Plus(a.delegatedVesting, c.denom, x),
              delegatedFree := Plus(a.delegatedFree, c.denom, c.amount - x)))
  }

  /** `trackDelegation`: coin by coin, all or nothing. */
  function Track(a: Account, amount: seq<Coin>): Option<Account>
  {
    if amount == [] then Some(a)
    else
      match Track(a, amount[..|amount| - 1])
      case None => None
      case Some(b) => TrackCoin(b, amount[|amount| - 1])
  }

  function Exec(a: Account, e: Event): Account
  {
    match e
    case Receive(c) =>
      if c.amount <= 0 then a
      else a.(coins := Plus(a.coins, c.denom, c.amount), received := Plus(a.received, c.denom, c.amount))
    case Spend(c) =>
      if c.amount <= 0 || c.amount > SpendableOf(a, c.denom) then a
      else a.(coins := Plus(a.coins, c.denom, -c.amount), spent := Plus(a.spent, c.denom, c.amount))
    case Delegate(amount) =>
      (match Track(a, amount) case None => a case Some(b) => b)
    case Wait(seconds) => a.(now := a.now + seconds)
  }

  function Run(a: Account, events: seq<Event>): Account
  {
    if events == [] then a else Exec(Run(a, events[..|events| - 1]), events[|events| - 1])
  }

  /** `NewBaseGradedVestingAccount`: all coins of a new account are its original vesting. */
  ghost predicate NewAccount(a: Account)
  {
    && AllSchedulesValid(a.schedules) && NonNegative(a.original) && a.coins == a.original
    && a.delegatedVesting == map[] && a.delegatedFree == map[] && a.received == map[] && a.spent == map[]
  }

  /** Coins and delegated vesting coins cover what is still vesting. */
  ghost predicate Covered(a: Account, d: Denom)
  {
    Get(a.coins, d) >= 0 && Get(a.delegatedVesting, d) >= 0
        && Get(a.coins, d) + Get(a.delegatedVesting, d) >= Locked(a, d)
  }

  /** Every coin is still there, delegated or spent. */
  ghost predicate Balanced(a: Account, d: Denom)
  {
    Get(a.coins, d) + Get(a.delegatedVesting, d) + Get(a.delegatedFree, d) + Get(a.spent, d)
        == Get(a.original, d) + Get(a.received, d)
  }

  ghost predicate Inv(a: Account)
  {
    && AllSchedulesValid(a.schedules) && NonNegative(a.original)
    && forall d :: Covered(a, d) && Balanced(a, d)
  }

  /** One denomination of a delegation keeps the cover: vesting coins are delegated first. */
  lemma {:induction false} DelegationKeepsCover(coins: int, dv: int, vesting: int, amount: int)
    requires coins >= amount >= 0 && dv >= 0 && coins + dv >= vesting
    ensures var x := FromVesting(vesting, dv, amount);
            0 <= x <= amount && coins - amount + (dv + x) >= vesting
  {
  }

  lemma {:induction false} TrackCoinKeepsInv(a: Account, c: Coin)
    requires Inv(a) && TrackCoin(a, c).Some?
    ensures Inv(TrackCoin(a, c).value)
  {
    var b := TrackCoin(a, c).value;
    forall d
      ensures Covered(b, d) && Balanced(b, d)
    {
      assert Covered(a, d) && Balanced(a, d);
      if d == c.denom {
        DelegationKeepsCover(Get(a.coins, d), Get(a.delegatedVesting, d), Locked(a, d), c.amount);
      }
    }
  }

  lemma {:induction false} TrackKeepsInv(a: Account, amount: seq<Coin>)
    requires Inv(a) && Track(a, amount).Some?
    ensures Inv(Track(a, amount).value)
    decreases |amount|
  {
    if amount != [] {
      TrackKeepsInv(a, amount[..|amount| - 1]);
      TrackCoinKeepsInv(Track(a, amount[..|amount| - 1]).value, amount[|amount| - 1]);
    }
  }

  lemma {:induction false} ReceiveKeepsInv(a: Account, c: Coin)
    requires Inv(a)
    ensures Inv(Exec(a, Receive(c)))
  {
    var b := Exec(a, Receive(c));
    forall d
      ensures Covered(b, d) && Balanced(b, d)
    {
      assert Covered(a, d) && Balanced(a, d);
    }
  }

  lemma {:induction false} SpendKeepsInv(a: Account, c: Coin)
    requires Inv(a)
    ensures Inv(Exec(a, Spend(c)))
  {
    var b := Exec(a, Spend(c));
    forall d
      ensures Covered(b, d) && Balanced(b, d)
    {
      assert Covered(a, d) && Balanced(a, d);
    }
  }

  lemma {:induction false} WaitKeepsInv(a: Account, seconds: nat)
    requires Inv(a)
    ensures Inv(Exec(a, Wait(seconds)))
  {
    var b := Exec(a, Wait(seconds));
    forall d
      ensures Covered(b, d) && Balanced(b, d)
    {
      assert Covered(a, d) && Balanced(a, d);
      VestedOverTime(a.original, a.schedules, d, a.now, b.now);
    }
  }

  lemma {:induction false} ExecKeepsInv(a: Account, e: Event)
    requires Inv(a)
    ensures Inv(Exec(a, e))
  {
    match e
    case Receive(c) => ReceiveKeepsInv(a, c);
    case Spend(c) => SpendKeepsInv(a, c);
    case Delegate(amount) => if Track(a, amount).Some? { TrackKeepsInv(a, amount); }
    case Wait(seconds) => WaitKeepsInv(a, seconds);
  }

  lemma {:induction false} RunKeepsInv(a: Account, events: seq<Event>)
    requires Inv(a)
    ensures Inv(Run(a, events))
    decreases |events|
  {
    if events != [] {
      RunKeepsInv(a, events[..|events| - 1]);
      ExecKeepsInv(Run(a, events[..|events| - 1]), events[|events| - 1]);
    }
  }

  lemma {:induction false} NewAccountInv(a: Account)
    requires NewAccount(a)
    ensures Inv(a)
  {
    forall d
      ensures Covered(a, d) && Balanced(a, d)
    {
      VestedOverTime(a.original, a.schedules, d, a.now, a.now);
    }
  }

  /** Vesting safety of every run of a new account: what is spendable is never negative, and what has been spent or
      delegated as free never exceeds what has vested or been received. */
  lemma {:induction false} VestingSafety(a: Account, events: seq<Event>, d: Denom)
    requires NewAccount(a)
    ensures var b := Run(a, events);
            && 0 <= SpendableOf(b, d) && !NegativeCoin(b)
            && Get(b.spent, d) + Get(b.delegatedFree, d)
               <= Vested(b.original, b.schedules, d, b.now) + Get(b.received, d)
  {
    NewAccountInv(a);
    RunKeepsInv(a, events);
    var b := Run(a, events);
    assert Covered(b, d) && Balanced(b, d);
    forall e
      ensures SpendableOf(b, e) >= 0
    {
      assert Covered(b, e);
    }
  }
}
