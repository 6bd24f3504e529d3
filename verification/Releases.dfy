/** How much vests and when, what may be spent, and how delegations are split, stated without the code's formulas. */
module Releases {
  import opened Wrappers
  import opened Sums
  import opened Coins
  import opened Vesting
  import opened Migration
  import Dec

  // ---------------------------------------------------------------------------
  // Ratios

  /** A linear piece releases its ratio evenly: nothing before its start, all of it from its end on, and in between the
      part of the time that has passed, rounded down. */
  lemma {:induction false} LinearRelease(start: int, end: int, ratio: int, t: int)
    requires ValidPiece(Linear(start, end, ratio))
    ensures var v := VestedRatio([Linear(start, end, ratio)], t);
            && (t < start ==> v == 0)
            && (start <= t < end ==> v * (end - start) <= ratio * (t - start) < (v + 1) * (end - start))
            && (end <= t ==> v == ratio)
  {
    var ps := [Linear(start, end, ratio)];
    assert ps[..|ps| - 1] == [];
    assert VestedRatio(ps, t) == VestedPart(ps[0], t);
    if start <= t < end {
      var vested: nat := Dec.Product(ratio, t - start);
      Dec.DivBounds(vested, end - start);
      Dec.OneMore(vested / (end - start), end - start);
    }
  }

  /** The pieces of a schedule vest independently of each other. */
  lemma {:induction false} RatiosAdd(ps: seq<Piece>, qs: seq<Piece>, t: int)
    ensures VestedRatio(ps + qs, t) == VestedRatio(ps, t) + VestedRatio(qs, t)
    decreases |qs|
  {
    if qs == [] {
      assert ps + qs == ps;
    } else {
      assert (ps + qs)[..|ps + qs| - 1] == ps + qs[..|qs| - 1];
      RatiosAdd(ps, qs[..|qs| - 1], t);
    }
  }

  /** How many of the thirty days after a cliff have passed, in seconds. */
  function Elapsed(cliff: int, t: int): (e: nat)
    ensures e <= SECONDS_PER_MONTH
  {
    Dec.Max(0, Dec.Min(t - cliff, SECONDS_PER_MONTH))
  }

  /** Each ratio times the seconds that have passed of its thirty days. */
  function Accrued(ps: seq<Piece>, t: int): int
    requires AllCliffs(ps)
  {
    if ps == [] then 0
    else Accrued(ps[..|ps| - 1], t) + ps[|ps| - 1].ratio * Elapsed(ps[|ps| - 1].cliff, t)
  }

  lemma {:induction false} PieceAccrues(p: Piece, t: int)
    requires p.Cliff? && ValidPiece(p)
    ensures var v := VestedPart(MigratePiece(p), t);
            v * SECONDS_PER_MONTH <= p.ratio * Elapsed(p.cliff, t) < (v + 1) * SECONDS_PER_MONTH
  {
    if p.cliff <= t < p.cliff + SECONDS_PER_MONTH {
      var vested: nat := Dec.Product(p.ratio, t - p.cliff);
      Dec.DivBounds(vested, SECONDS_PER_MONTH);
    }
  }

  /** What a converted schedule has vested at any time: the accrued seconds by thirty days, short by less than 10^-18
      for each of its cliffs. */
  lemma {:induction false} ConvertedRatio(ps: seq<Piece>, t: int)
    requires AllCliffs(ps) && AllValid(ps)
    ensures var v := VestedRatio(MigratePieces(ps), t);
            v * SECONDS_PER_MONTH <= Accrued(ps, t) <= v * SECONDS_PER_MONTH + |ps| * (SECONDS_PER_MONTH - 1)
    decreases |ps|
  {
    if ps != [] {
      ConvertedRatio(ps[..|ps| - 1], t);
      MigratePiecesLast(ps);
      PieceAccrues(ps[|ps| - 1], t);
    }
  }

  // ---------------------------------------------------------------------------
  // Amounts

  /** The vested amount is the ratio's part of the amount, rounded to the nearest coin, half to even. */
  lemma {:induction false} VestedIsNearest(amount: int, ratio: int)
    ensures Dec.NearestEven(amount * ratio, VestedAmount(amount, ratio))
  {
    Dec.MulFromInt(amount, ratio);
    Dec.ChopNearest(amount * ratio);
  }

  /** The schedule of a denomination is the first one that names it. */
  lemma {:induction false} FirstScheduleCounts(schedules: seq<VestingSchedule>, d: Denom, i: nat)
    requires i < |schedules| && schedules[i].denom == d
    requires forall k :: 0 <= k < i ==> schedules[k].denom != d
    ensures FindSchedule(schedules, d) == Some(schedules[i])
    decreases i
  {
    if i > 0 {
      FirstScheduleCounts(schedules[1..], d, i - 1);
    }
  }

  /** A converted account releases each original amount evenly over the thirty days after each cliff: up to rounding,
      what has vested is `amount * Accrued / (10^18 * 30 days)`. */
  lemma {:induction false} ConvertedRelease(original: Coins, schedules: seq<VestingSchedule>, d: Denom, t: int)
    requires AllGraded(schedules) && AllSchedulesValid(schedules) && Get(original, d) >= 0
    requires FindSchedule(schedules, d).Some?
    ensures var ps := FindSchedule(schedules, d).value.pieces;
            var amount, vested := Get(original, d), Vested(original, MigrateAll(schedules), d, t);
            && AllCliffs(ps)
            && 2 * Dec.Abs(vested * Dec.ONE * SECONDS_PER_MONTH - amount * Accrued(ps, t))
               <= Dec.ONE * SECONDS_PER_MONTH + 2 * (amount * (|ps| * SECONDS_PER_MONTH))
  {
    FindMigrated(schedules, d);
    FoundIsValid(schedules, d);
    var ps := FindSchedule(schedules, d).value.pieces;
    var ratio := VestedRatio(MigratePieces(ps), t);
    ConvertedRatio(ps, t);
    VestedIsNearest(Get(original, d), ratio);
    NearTo(Get(original, d), ratio, VestedAmount(Get(original, d), ratio), SECONDS_PER_MONTH, Accrued(ps, t), |ps|);
  }

  lemma {:induction false} NearTo(amount: nat, ratio: int, vested: int, span: nat, accrued: int, n: nat)
    requires 2 * Dec.Abs(amount * ratio - vested * Dec.ONE) <= Dec.ONE
    requires ratio * span <= accrued <= ratio * span + n * (span - 1)
    ensures 2 * Dec.Abs(vested * Dec.ONE * span - amount * accrued) <= Dec.ONE * span + 2 * (amount * (n * span))
  {
    BothErrors(amount, ratio, vested, span, accrued);
    ErrorTimes(vested * Dec.ONE - amount * ratio, span);
    ShortfallTimes(accrued - ratio * span, n, span, amount);
  }

  lemma {:induction false} ErrorTimes(error: int, span: nat)
    requires 2 * Dec.Abs(error) <= Dec.ONE
    ensures 2 * Dec.Abs(error * span) <= Dec.ONE * span
  {
    Dec.TimesMonotone(2 * error, Dec.ONE, span);
    Dec.TimesMonotone(-Dec.ONE, 2 * error, span);
  }

  lemma {:induction false} ShortfallTimes(shortfall: nat, n: nat, span: nat, amount: nat)
    requires shortfall <= n * (span - 1)
    ensures 0 <= shortfall * amount <= amount * (n * span)
  {
    assert n * (span - 1) == n * span - n;
    Dec.TimesMonotone(0, shortfall, amount);
    Dec.TimesMonotone(shortfall, n * span, amount);
  }

  lemma {:induction false} BothErrors(amount: int, ratio: int, vested: int, span: int, accrued: int)
    ensures vested * Dec.ONE * span - amount * accrued
         == (vested * Dec.ONE - amount * ratio) * span - (accrued - ratio * span) * amount
  {
  }

  /** Half of the thirty days after a cliff, half of ten coins. */
  lemma {:induction false} HalfOfTen(start: nat, end: nat, middle: nat)
    requires end == start + SECONDS_PER_MONTH && 2 * middle == start + end
    ensures VestedAmount(10, VestedRatio([Linear(start, end, Dec.ONE)], middle)) == 5
  {
    LinearRelease(start, end, Dec.ONE, middle);
    var v := VestedRatio([Linear(start, end, Dec.ONE)], middle);
    VestedIsNearest(10, v);
    Dec.NearestEvenUnique(10 * v, VestedAmount(10, v), 5);
  }

  // ---------------------------------------------------------------------------
  // Spending

  /** Exactly those amounts may be spent that leave the account covered: `SpendableCoins` is not more cautious than the
      vesting demands. */
  lemma {:induction false} SpentExactly(a: Account, c: Coin)
    requires Inv(a) && c.amount > 0
    ensures var left := a.(coins := Plus(a.coins, c.denom, -c.amount));
            && (Exec(a, Spend(c)) != a <==> Covered(left, c.denom))
            && (Covered(left, c.denom) ==> Exec(a, Spend(c)).coins == left.coins)
  {
    assert Covered(a, c.denom);
    assert c.amount <= SpendableOf(a, c.denom)
           ==> Get(Exec(a, Spend(c)).coins, c.denom) == Get(a.coins, c.denom) - c.amount;
  }

  // ---------------------------------------------------------------------------
  // Delegations

  function AmountOf(amount: seq<Coin>, d: Denom): int
  {
    if amount == [] then 0
    else AmountOf(amount[..|amount| - 1], d)
         + (if amount[|amount| - 1].denom == d then amount[|amount| - 1].amount else 0)
  }

  /** `b` is `a` after `n` coins of a denomination were delegated: they left the account as vesting coins first, and as
      free ones only once all that is still vesting is delegated. */
  ghost predicate SplitOf(a: Account, b: Account, d: Denom, n: int)
  {
    var x, y := Get(b.delegatedVesting, d) - Get(a.delegatedVesting, d),
        Get(b.delegatedFree, d) - Get(a.delegatedFree, d);
    && x >= 0 && y >= 0 && x + y == n && Get(b.coins, d) == Get(a.coins, d) - n
    && (y > 0 ==> Get(b.delegatedVesting, d) >= Locked(a, d))
    && (x > 0 ==> Get(b.delegatedVesting, d) <= Locked(a, d))
  }

  /** Delegations are taken from vesting coins first, whatever the list of coins. */
  lemma {:induction false} DelegationSplit(a: Account, amount: seq<Coin>, d: Denom)
    requires Track(a, amount).Some?
    ensures SplitOf(a, Track(a, amount).value, d, AmountOf(amount, d))
    ensures Locked(Track(a, amount).value, d) == Locked(a, d)
    decreases |amount|
  {
    if amount != [] {
      DelegationSplit(a, amount[..|amount| - 1], d);
    }
  }

  predicate AllPositive(amount: seq<Coin>)
  {
    forall i :: 0 <= i < |amount| ==> amount[i].amount > 0
  }

  ghost predicate Affords(coins: Coins, amount: seq<Coin>)
  {
    forall d :: AmountOf(amount, d) > 0 ==> AmountOf(amount, d) <= Get(coins, d)
  }

  lemma {:induction false} AmountNotNegative(amount: seq<Coin>, d: Denom)
    requires AllPositive(amount)
    ensures AmountOf(amount, d) >= 0
    decreases |amount|
  {
    if amount != [] {
      AmountNotNegative(amount[..|amount| - 1], d);
    }
  }

  lemma {:induction false} AffordsStep(coins: Coins, amount: seq<Coin>, c: Coin)
    requires AllPositive(amount) && c.amount > 0
    ensures Affords(coins, amount + [c])
       <==> Affords(coins, amount) && AmountOf(amount, c.denom) + c.amount <= Get(coins, c.denom)
  {
    var more := amount + [c];
    assert more[..|more| - 1] == amount;
    forall d
      ensures AmountOf(more, d) == AmountOf(amount, d) + (if c.denom == d then c.amount else 0)
    {
    }
    AmountNotNegative(amount, c.denom);
    assert AmountOf(more, c.denom) > 0;
    if Affords(coins, more) {
      forall d | AmountOf(amount, d) > 0
        ensures AmountOf(amount, d) <= Get(coins, d)
      {
        assert AmountOf(more, d) > 0;
      }
    }
  }

  /** A delegation is accepted exactly when every coin is positive and the account holds all of them together. */
  lemma {:induction false} DelegationAccepted(a: Account, amount: seq<Coin>)
    ensures Track(a, amount).Some? <==> AllPositive(amount) && Affords(a.coins, amount)
    decreases |amount|
  {
    if amount != [] {
      var front, c := amount[..|amount| - 1], amount[|amount| - 1];
      DelegationAccepted(a, front);
      assert front + [c] == amount;
      assert AllPositive(amount) <==> AllPositive(front) && c.amount > 0;
      if AllPositive(amount) {
        AffordsStep(a.coins, front, c);
      }
      if Track(a, front).Some? {
        DelegationSplit(a, front, c.denom);
      }
    }
  }
}
