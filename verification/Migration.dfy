/**
 The conversion of ordinary graded accounts to lazy ones (update/plan/update_230000.go): each cliff becomes a linear
 release over the thirty days that follow it.
 */
module Migration {
  import opened Wrappers
  import opened Sums
  import opened Coins
  import opened Vesting
  import opened VestingAccounts
  import Dec

  const SECONDS_PER_MONTH: int := 30 * 24 * 60 * 60

  predicate AllCliffs(ps: seq<Piece>)
  {
    forall i :: 0 <= i < |ps| ==> ps[i].Cliff?
  }

  predicate IsGraded(vs: VestingSchedule) { AllCliffs(vs.pieces) }

  predicate AllGraded(schedules: seq<VestingSchedule>)
  {
    forall i :: 0 <= i < |schedules| ==> IsGraded(schedules[i])
  }

  function MigratePiece(p: Piece): Piece
    requires p.Cliff?
  {
    Linear(p.cliff, p.cliff + SECONDS_PER_MONTH, p.ratio)
  }

  function MigratePieces(ps: seq<Piece>): (qs: seq<Piece>)
    requires AllCliffs(ps)
  {
    if ps == [] then [] else MigratePieces(ps[..|ps| - 1]) + [MigratePiece(ps[|ps| - 1])]
  }

  function MigrateSchedule(vs: VestingSchedule): VestingSchedule
    requires IsGraded(vs)
  {
    VestingSchedule(vs.denom, MigratePieces(vs.pieces))
  }

  function MigrateAll(schedules: seq<VestingSchedule>): seq<VestingSchedule>
    requires AllGraded(schedules)
  {
    if schedules == [] then []
        else MigrateAll(schedules[..|schedules| - 1]) + [MigrateSchedule(schedules[|schedules| - 1])]
  }

  lemma {:induction false} MigratePiecesLast(ps: seq<Piece>)
    requires AllCliffs(ps) && ps != []
    ensures var qs := MigratePieces(ps);
            qs != [] && qs[|qs| - 1] == MigratePiece(ps[|ps| - 1]) && qs[..|qs| - 1] == MigratePieces(ps[..|ps| - 1])
  {
  }

  // ---------------------------------------------------------------------------
  // The sandwich

  lemma {:induction false} PartSandwich(p: Piece, t: int)
    requires p.Cliff? && ValidPiece(p)
    ensures VestedPart(p, t - SECONDS_PER_MONTH) <= VestedPart(MigratePiece(p), t) <= VestedPart(p, t)
    ensures VestedPart(MigratePiece(p), t) == VestedPart(p, t) <==> !(p.cliff <= t < p.cliff + SECONDS_PER_MONTH)
  {
    var q := MigratePiece(p);
    PartBounds(q, t);
    if p.cliff <= t < p.cliff + SECONDS_PER_MONTH {
      StrictlyLess(p.ratio, t - p.cliff, SECONDS_PER_MONTH);
    }
  }

  lemma {:induction false} StrictlyLess(ratio: int, elapsed: int, span: int)
    requires ratio > 0 && 0 <= elapsed < span
    ensures 0 <= ratio * elapsed
    ensures ratio * elapsed / span < ratio
  {
    assert ratio * elapsed >= 0;
    assert ratio * (span - elapsed) > 0;
    assert ratio * elapsed < ratio * span;
    Dec.DivBounds(ratio * elapsed, span);
    var q := ratio * elapsed / span;
    assert q >= ratio ==> q * span >= ratio * span;
  }

  /** No cliff lies in the thirty days up to `t`. */
  predicate NoRecentCliff(ps: seq<Piece>, t: int)
  {
    forall i :: 0 <= i < |ps| && ps[i].Cliff? ==> !(ps[i].cliff <= t < ps[i].cliff + SECONDS_PER_MONTH)
  }

  /** At every time the lazy ratio lies between the graded one of thirty days earlier and the graded one, and it
      equals the graded one exactly when no cliff lies in the last thirty days. */
  lemma {:induction false} RatioSandwich(ps: seq<Piece>, t: int)
    requires AllCliffs(ps) && AllValid(ps)
    ensures VestedRatio(ps, t - SECONDS_PER_MONTH) <= VestedRatio(MigratePieces(ps), t) <= VestedRatio(ps, t)
    ensures VestedRatio(MigratePieces(ps), t) == VestedRatio(ps, t) <==> NoRecentCliff(ps, t)
    decreases |ps|
  {
    if ps != [] {
      var front, p := ps[..|ps| - 1], ps[|ps| - 1];
      RatioSandwich(front, t);
      MigratePiecesLast(ps);
      PartSandwich(p, t);
      assert NoRecentCliff(ps, t) <==> NoRecentCliff(front, t) && NoRecentCliff([p], t) by {
        assert ps == front + [p];
      }
    }
  }

  lemma {:induction false} MigrationKeepsValid(ps: seq<Piece>)
    requires AllCliffs(ps) && AllValid(ps)
    ensures AllValid(MigratePieces(ps)) && SumRatio(MigratePieces(ps)) == SumRatio(ps)
    decreases |ps|
  {
    if ps != [] {
      MigrationKeepsValid(ps[..|ps| - 1]);
      MigratePiecesLast(ps);
    }
  }

  /** A valid graded schedule becomes a valid lazy one, so the conversion never panics. */
  lemma {:induction false} MigratedIsValid(vs: VestingSchedule)
    requires IsGraded(vs) && Valid(vs)
    ensures Valid(MigrateSchedule(vs))
  {
    MigrationKeepsValid(vs.pieces);
  }

  /** The sandwich for rounded amounts. */
  lemma {:induction false} AmountSandwich(vs: VestingSchedule, amount: nat, t: int)
    requires IsGraded(vs) && Valid(vs)
    ensures VestedAmount(amount, VestedRatio(vs.pieces, t - SECONDS_PER_MONTH))
         <= VestedAmount(amount, VestedRatio(MigrateSchedule(vs).pieces, t))
         <= VestedAmount(amount, VestedRatio(vs.pieces, t))
  {
    RatioSandwich(vs.pieces, t);
    RatioOverTime(vs.pieces, t - SECONDS_PER_MONTH, t);
    var early, lazy, late := VestedRatio(vs.pieces, t - SECONDS_PER_MONTH), VestedRatio(MigratePieces(vs.pieces), t),
        VestedRatio(vs.pieces, t);
    VestedAmountMonotone(amount, early, lazy);
    VestedAmountMonotone(amount, lazy, late);
  }

  lemma {:induction false} FindMigrated(schedules: seq<VestingSchedule>, d: Denom)
    requires AllGraded(schedules)
    ensures FindSchedule(schedules, d).Some? ==> IsGraded(FindSchedule(schedules, d).value)
    ensures FindSchedule(MigrateAll(schedules), d)
         == (match FindSchedule(schedules, d) case None => None case Some(vs) => Some(MigrateSchedule(vs)))
    decreases |schedules|
  {
    if schedules != [] {
      FindMigrated(schedules[1..], d);
      MigrateAllFirst(schedules);
    }
  }

  lemma {:induction false} MigrateAllFirst(schedules: seq<VestingSchedule>)
    requires schedules != [] && AllGraded(schedules)
    ensures MigrateAll(schedules) == [MigrateSchedule(schedules[0])] + MigrateAll(schedules[1..])
    decreases |schedules|
  {
    var front, last := schedules[..|schedules| - 1], MigrateSchedule(schedules[|schedules| - 1]);
    if front == [] {
      assert schedules[1..] == [];
    } else {
      MigrateAllFirst(front);
      assert front[1..] == schedules[1..][..|schedules| - 2];
      assert MigrateAll(schedules[1..]) == MigrateAll(front[1..]) + [last];
    }
  }

  /** The sandwich for the account: what it has vested of any denomination before and after the conversion. */
  lemma {:induction false} VestedSandwich(original: Coins, schedules: seq<VestingSchedule>, d: Denom, t: int)
    requires NonNegative(original) && AllSchedulesValid(schedules)
    requires AllGraded(schedules)
    ensures Vested(original, schedules, d, t - SECONDS_PER_MONTH)
         <= Vested(original, MigrateAll(schedules), d, t)
         <= Vested(original, schedules, d, t)
  {
    FindMigrated(schedules, d);
    FoundIsValid(schedules, d);
    match FindSchedule(schedules, d)
    case None =>
    case Some(vs) => AmountSandwich(vs, Get(original, d), t);
  }

  // ---------------------------------------------------------------------------
  // What the conversion does to the cover of an account

  /** Coins the account holds and its delegated vesting coins cover the vesting amount, so that `spendableCoins` forms
      no negative coin. */
  predicate Covers(coins: int, delegatedVesting: int, vesting: int)
  {
    coins > 0 && delegatedVesting >= 0 && coins + delegatedVesting >= vesting
  }

  /** What is still vesting of an amount under a list of pieces. */
  function Owed(ps: seq<Piece>, amount: nat, t: int): int
  {
    amount - VestedAmount(amount, VestedRatio(ps, t))
  }

  ghost predicate KeepsCover(before: int, after: int)
  {
    forall coins, dv :: Covers(coins, dv, before) ==> Covers(coins, dv, after)
  }

  /** One more coin vesting than before may still be covered by a coin that was spendable; two more need not be. */
  lemma {:induction false} CoverIff(before: nat, after: nat)
    requires before <= after
    ensures KeepsCover(before, after) <==> after == before || after <= 1
  {
    assert Covers(if before > 0 then before else 1, 0, before);
  }

  lemma {:induction false} AmountKeepsCover(vs: VestingSchedule, amount: nat, t: int)
    requires IsGraded(vs) && Valid(vs)
    ensures var before, after := Owed(vs.pieces, amount, t), Owed(MigratePieces(vs.pieces), amount, t);
            0 <= before <= after && (KeepsCover(before, after) <==> after == before || after <= 1)
  {
    AmountSandwich(vs, amount, t);
    RatioOverTime(vs.pieces, t, t);
    VestedAmountMonotone(amount, VestedRatio(vs.pieces, t), VestedRatio(vs.pieces, t));
    CoverIff(Owed(vs.pieces, amount, t), Owed(MigratePieces(vs.pieces), amount, t));
  }

  /** An amount of 2 * 10^18 has vested by exactly twice the digits of the ratio. */
  lemma {:induction false} RatioShows(ratio: int)
    ensures VestedAmount(2 * Dec.ONE, ratio) == 2 * ratio
  {
    Dec.MulFromInt(2 * Dec.ONE, ratio);
    assert (2 * Dec.ONE) * ratio == (2 * ratio) * Dec.ONE;
    Dec.ChopExact(2 * ratio);
  }

  /** The conversion at time `t` leaves every account that holds a coin and was covered still covered, whatever its
      amount, exactly when no cliff of the schedule lies in the thirty days before it. */
  lemma {:induction false} MigrationKeepsCover(vs: VestingSchedule, t: int)
    requires IsGraded(vs) && Valid(vs)
    ensures (forall amount: nat :: KeepsCover(Owed(vs.pieces, amount, t), Owed(MigratePieces(vs.pieces), amount, t)))
       <==> NoRecentCliff(vs.pieces, t)
  {
    var ps, qs := vs.pieces, MigratePieces(vs.pieces);
    RatioSandwich(ps, t);
    forall amount: nat
      ensures Owed(qs, amount, t) == Owed(ps, amount, t) ==> KeepsCover(Owed(ps, amount, t), Owed(qs, amount, t))
    {
      AmountKeepsCover(vs, amount, t);
    }
    if !NoRecentCliff(ps, t) {
      RatioShows(VestedRatio(ps, t));
      RatioShows(VestedRatio(qs, t));
      AmountKeepsCover(vs, 2 * Dec.ONE, t);
      assert !KeepsCover(Owed(ps, 2 * Dec.ONE, t), Owed(qs, 2 * Dec.ONE, t));
    }
  }

  // ---------------------------------------------------------------------------
  // Runs across the conversion

  /** The account of `Update230000`: the same holdings under the converted schedules. */
  function Converted(a: Account, schedules: seq<VestingSchedule>): Account
    requires AllGraded(schedules)
  {
    a.(schedules := MigrateAll(schedules))
  }

  /** An account as it is start, with all of its coins subject to the schedules. */
  function Opened(original: Coins, schedules: seq<VestingSchedule>, now: int): Account
  {
    Account(original, schedules, original, map[], map[], map[], map[], now)
  }

  /** For every denomination that vests, no cliff lies in the thirty days up to `t`. */
  ghost predicate Settled(schedules: seq<VestingSchedule>, t: int)
  {
    forall d :: FindSchedule(schedules, d).Some? ==> NoRecentCliff(FindSchedule(schedules, d).value.pieces, t)
  }

  /** Whatever an account start at `start` holds, whatever it does until `t` and whatever it does after it is then
      converted, `spendableCoins` never forms a negative coin. */
  ghost predicate SafeAcross(schedules: seq<VestingSchedule>, start: int, t: int)
    requires AllGraded(schedules)
  {
    forall original: Coins, before: seq<Event>, after: seq<Event> :: NonNegative(original) ==>
      var a := Run(Opened(original, schedules, start), before);
      a.now == t ==> !NegativeCoin(Run(Converted(a, schedules), after))
  }

  lemma {:induction false} RunKeepsTerms(a: Account, events: seq<Event>)
    ensures Run(a, events).schedules == a.schedules && Run(a, events).original == a.original
    decreases |events|
  {
    if events != [] {
      RunKeepsTerms(a, events[..|events| - 1]);
      ExecKeepsTerms(Run(a, events[..|events| - 1]), events[|events| - 1]);
    }
  }

  lemma {:induction false} ExecKeepsTerms(a: Account, e: Event)
    ensures Exec(a, e).schedules == a.schedules && Exec(a, e).original == a.original
  {
    if e.Delegate? {
      TrackKeepsTerms(a, e.amount);
    }
  }

  lemma {:induction false} TrackKeepsTerms(a: Account, amount: seq<Coin>)
    ensures Track(a, amount).Some? ==>
              Track(a, amount).value.schedules == a.schedules && Track(a, amount).value.original == a.original
    decreases |amount|
  {
    if amount != [] {
      TrackKeepsTerms(a, amount[..|amount| - 1]);
    }
  }

  /** With no recent cliff the conversion changes no locked amount. */
  lemma {:induction false} LockedKept(a: Account, d: Denom)
    requires AllSchedulesValid(a.schedules) && Settled(a.schedules, a.now)
    requires AllGraded(a.schedules)
    ensures Locked(Converted(a, a.schedules), d) == Locked(a, d)
  {
    FindMigrated(a.schedules, d);
    FoundIsValid(a.schedules, d);
    match FindSchedule(a.schedules, d)
    case None =>
    case Some(vs) => RatioSandwich(vs.pieces, a.now);
  }

  lemma {:induction false} ConversionKeepsInv(a: Account)
    requires Inv(a) && Settled(a.schedules, a.now)
    requires AllGraded(a.schedules)
    ensures Inv(Converted(a, a.schedules))
  {
    AllMigratedValid(a.schedules);
    forall d
      ensures Covered(Converted(a, a.schedules), d) && Balanced(Converted(a, a.schedules), d)
    {
      assert Covered(a, d) && Balanced(a, d);
      LockedKept(a, d);
    }
  }

  lemma {:induction false} NoNegativeCoin(a: Account)
    requires Inv(a)
    ensures !NegativeCoin(a)
  {
    forall d
      ensures SpendableOf(a, d) >= 0
    {
      assert Covered(a, d);
    }
  }

  lemma {:induction false} SettledIsSafe(schedules: seq<VestingSchedule>, start: int, t: int)
    requires AllSchedulesValid(schedules) && AllGraded(schedules)
    requires Settled(schedules, t)
    ensures SafeAcross(schedules, start, t)
  {
    forall original: Coins, before: seq<Event>, after: seq<Event> | NonNegative(original)
      ensures var a := Run(Opened(original, schedules, start), before);
              a.now == t ==> !NegativeCoin(Run(Converted(a, schedules), after))
    {
      var a := Run(Opened(original, schedules, start), before);
      if a.now == t {
        RunKeepsTerms(Opened(original, schedules, start), before);
        NewAccountInv(Opened(original, schedules, start));
        RunKeepsInv(Opened(original, schedules, start), before);
        ConversionKeepsInv(a);
        RunKeepsInv(Converted(a, schedules), after);
        NoNegativeCoin(Run(Converted(a, schedules), after));
      }
    }
  }

  /** What is locked of twice 10^18 coins shows every digit of the ratio. */
  lemma {:induction false} LockedShows(schedules: seq<VestingSchedule>, d: Denom, vs: VestingSchedule, t: int)
    requires FindSchedule(schedules, d) == Some(vs)
    ensures StillVesting(map[d := 2 * Dec.ONE], schedules, d, t) == 2 * Dec.ONE - 2 * VestedRatio(vs.pieces, t)
  {
    RatioShows(VestedRatio(vs.pieces, t));
  }

  /** All but one of the vested coins are spent right before the conversion. */
  lemma {:induction false} Overspent(a: Account, schedules: seq<VestingSchedule>, d: Denom, ratio: int, lazy: int)
    requires AllGraded(schedules) && a == Opened(map[d := 2 * Dec.ONE], schedules, a.now)
    requires 0 <= lazy < ratio <= Dec.ONE
    requires Locked(a, d) == 2 * Dec.ONE - 2 * ratio && Locked(Converted(a, schedules), d) == 2 * Dec.ONE - 2 * lazy
    ensures NegativeCoin(Converted(Exec(a, Spend(Coin(d, 2 * ratio - 1))), schedules))
  {
    var c := Converted(Exec(a, Spend(Coin(d, 2 * ratio - 1))), schedules);
    assert Get(c.coins, d) == 2 * Dec.ONE - 2 * ratio + 1;
    assert Locked(c, d) == 2 * Dec.ONE - 2 * lazy;
    assert SpendableOf(c, d) < 0;
  }

  lemma {:induction false} RunTwo(a: Account, e: Event, f: Event)
    ensures Run(a, [e, f]) == Exec(Exec(a, e), f)
  {
    assert [e, f][..1] == [e] && [e][..0] == [];
    assert Run(a, [e][..0]) == a;
  }

  lemma {:induction false} RecentCliffLess(vs: VestingSchedule, t: int)
    requires IsGraded(vs) && Valid(vs) && !NoRecentCliff(vs.pieces, t)
    ensures 0 <= VestedRatio(MigratePieces(vs.pieces), t) < VestedRatio(vs.pieces, t) <= Dec.ONE
  {
    RatioSandwich(vs.pieces, t);
    RatioOverTime(vs.pieces, t, t);
    MigratedIsValid(vs);
    RatioOverTime(MigratePieces(vs.pieces), t, t);
  }

  /** What the account has at `t`, before it is converted and as it would be locked afterwards. */
  lemma {:induction false} LockedBothWays(schedules: seq<VestingSchedule>, d: Denom, vs: VestingSchedule, t: int)
    requires AllGraded(schedules) && FindSchedule(schedules, d) == Some(vs)
    ensures IsGraded(vs)
    ensures var a := Opened(map[d := 2 * Dec.ONE], schedules, t);
            && Locked(a, d) == 2 * Dec.ONE - 2 * VestedRatio(vs.pieces, t)
            && Locked(Converted(a, schedules), d) == 2 * Dec.ONE - 2 * VestedRatio(MigratePieces(vs.pieces), t)
  {
    FindMigrated(schedules, d);
    LockedShows(schedules, d, vs, t);
    LockedShows(MigrateAll(schedules), d, MigrateSchedule(vs), t);
  }

  /** A run that ends at `t` and that the conversion leaves with a negative coin. */
  lemma {:induction false} BadRun(schedules: seq<VestingSchedule>, start: int, t: int, d: Denom, vs: VestingSchedule)
    returns (before: seq<Event>)
    requires AllGraded(schedules) && start <= t && FindSchedule(schedules, d) == Some(vs)
    requires IsGraded(vs) && Valid(vs) && !NoRecentCliff(vs.pieces, t)
    ensures var a := Run(Opened(map[d := 2 * Dec.ONE], schedules, start), before);
            a.now == t && NegativeCoin(Converted(a, schedules))
  {
    RecentCliffLess(vs, t);
    LockedBothWays(schedules, d, vs, t);
    var ratio, lazy := VestedRatio(vs.pieces, t), VestedRatio(MigratePieces(vs.pieces), t);
    var account, atT := Opened(map[d := 2 * Dec.ONE], schedules, start), Opened(map[d := 2 * Dec.ONE], schedules, t);
    Overspent(atT, schedules, d, ratio, lazy);
    var spend := Spend(Coin(d, 2 * ratio - 1));
    before := [Wait(t - start), spend];
    RunTwo(account, Wait(t - start), spend);
    assert Exec(account, Wait(t - start)) == atT;
  }

  lemma {:induction false} UnsettledIsUnsafe(schedules: seq<VestingSchedule>, start: int, t: int)
    requires AllSchedulesValid(schedules) && AllGraded(schedules) && start <= t
    requires !Settled(schedules, t)
    ensures !SafeAcross(schedules, start, t)
  {
    var d :| FindSchedule(schedules, d).Some? && !NoRecentCliff(FindSchedule(schedules, d).value.pieces, t);
    FoundIsValid(schedules, d);
    FindMigrated(schedules, d);
    var before := BadRun(schedules, start, t, d, FindSchedule(schedules, d).value);
    var a := Run(Opened(map[d := 2 * Dec.ONE], schedules, start), before);
    var none: seq<Event> := [];
    assert Run(Converted(a, schedules), none) == Converted(a, schedules);
    assert NonNegative(map[d := 2 * Dec.ONE]);
  }

  /** No account that is converted at `t` ever runs into a negative coin, whatever it held and whatever it does before
      and after, if and only if for every denomination that vests no cliff lies in the thirty days up to `t`. */
  lemma {:induction false} MigrationSafeExactly(schedules: seq<VestingSchedule>, start: int, t: int)
    requires AllSchedulesValid(schedules) && AllGraded(schedules) && start <= t
    ensures SafeAcross(schedules, start, t) <==> Settled(schedules, t)
  {
    if Settled(schedules, t) {
      SettledIsSafe(schedules, start, t);
    } else {
      UnsettledIsUnsafe(schedules, start, t);
    }
  }

  /** A single cliff vests everything at once, its conversion nothing yet. */
  lemma {:induction false} OneCliff(t: nat)
    ensures var vs := VestingSchedule(LUNA, [Cliff(t, Dec.ONE)]);
            && Valid(vs) && IsGraded(vs)
            && VestedAmount(10, VestedRatio(vs.pieces, t)) == 10
            && VestedAmount(10, VestedRatio(MigrateSchedule(vs).pieces, t)) == 0
  {
    var ps := [Cliff(t, Dec.ONE)];
    assert ps[..0] == [] && SumRatio(ps[..0]) == 0 && VestedRatio(ps[..0], t) == 0 && MigratePieces(ps[..0]) == [];
    assert SumRatio(ps) == Dec.ONE && VestedRatio(ps, t) == Dec.ONE;
    var qs := MigratePieces(ps);
    assert qs == [Linear(t, t + SECONDS_PER_MONTH, Dec.ONE)];
    assert qs[..0] == [] && VestedRatio(qs[..0], t) == 0;
    assert VestedPart(qs[0], t) == 0 && VestedRatio(qs, t) == 0;
    Dec.MulFromInt(10, Dec.ONE);
    Dec.ChopExact(10);
    Dec.MulFromInt(10, 0);
    Dec.ChopExact(0);
  }

  /** The first of May 2019. */
  const CLIFF_TIME: nat := 1_556_668_800
  const ONE_DAY: nat := 24 * 60 * 60
  const ONE_CLIFF: VestingSchedule := VestingSchedule(LUNA, [Cliff(CLIFF_TIME, Dec.ONE)])
  const TEN_LUNA: Coins := map[LUNA := 10]

  /** A new account of ten coins, a day before the cliff at which they vest. */
  const DAY_BEFORE: Account := Opened(TEN_LUNA, [ONE_CLIFF], CLIFF_TIME - ONE_DAY)

  /** A day passes, and nine coins are spent. */
  const SPENDING: seq<Event> := [Wait(ONE_DAY), Spend(Coin(LUNA, 9))]

  lemma {:induction false} CliffVests()
    ensures Valid(ONE_CLIFF) && IsGraded(ONE_CLIFF)
    ensures StillVesting(TEN_LUNA, [ONE_CLIFF], LUNA, CLIFF_TIME) == 0
    ensures StillVesting(TEN_LUNA, MigrateAll([ONE_CLIFF]), LUNA, CLIFF_TIME) == 10
  {
    OneCliff(CLIFF_TIME);
    assert [ONE_CLIFF][..0] == [] && MigrateAll([ONE_CLIFF]) == [MigrateSchedule(ONE_CLIFF)];
    assert FindSchedule([ONE_CLIFF], LUNA) == Some(ONE_CLIFF);
    assert FindSchedule([MigrateSchedule(ONE_CLIFF)], LUNA) == Some(MigrateSchedule(ONE_CLIFF));
  }

  /** Small amounts show it: of ten coins that vested at a cliff nine are spent in the same second. The conversion makes
      all ten vest again, the coin that is left covers one of them, and `spendableCoins` forms a coin of minus nine. */
  lemma {:induction false} MigrationCanBreakCover()
    ensures Valid(ONE_CLIFF) && IsGraded(ONE_CLIFF) && NewAccount(DAY_BEFORE)
    ensures var before := Run(DAY_BEFORE, SPENDING);
            var after := Converted(before, [ONE_CLIFF]);
            && before.coins == map[LUNA := 1] && before.schedules == [ONE_CLIFF] && !NegativeCoin(before)
            && SpendableOf(after, LUNA) == -9 && NegativeCoin(after)
  {
    CliffVests();
    var atCliff := DAY_BEFORE.(now := CLIFF_TIME);
    RunTwo(DAY_BEFORE, Wait(ONE_DAY), Spend(Coin(LUNA, 9)));
    assert Exec(DAY_BEFORE, Wait(ONE_DAY)) == atCliff;
    assert SpendableOf(atCliff, LUNA) == 10;
    var before := Run(DAY_BEFORE, SPENDING);
    assert before == atCliff.(coins := map[LUNA := 1], spent := map[LUNA := 9]);
    var after := Converted(before, [ONE_CLIFF]);
    assert Get(after.coins, LUNA) != 0 && SpendableOf(after, LUNA) == -9;
    VestingSafety(DAY_BEFORE, SPENDING, LUNA);
  }

  /** The same through the account object: `SpendableCoins` fails after the conversion. */
  method SpendAfterMigration() returns (ok: bool)
    ensures !ok
  {
    CliffVests();
    var account := new VestingAccount(TEN_LUNA, MigrateAll([ONE_CLIFF]));
    account.coins := map[LUNA := 1];
    var spendable;
    ok, spendable := account.SpendableCoins(CLIFF_TIME);
    assert Get(account.coins, LUNA) != 0 && SpendableOf(account.Value(map[], map[], CLIFF_TIME), LUNA) == -9;
  }

  // ---------------------------------------------------------------------------
  // The code

  /** The conversion of an ordinary account's schedules: two nested loops that append, then the validity check. */
  method MigrateSchedules(schedules: seq<VestingSchedule>) returns (ok: bool, lazy: seq<VestingSchedule>)
    requires AllGraded(schedules)
    ensures lazy == MigrateAll(schedules)
    ensures ok <==> AllSchedulesValid(MigrateAll(schedules))
    ensures AllSchedulesValid(schedules) ==> ok
  {
    lazy := [];
    for i := 0 to |schedules|
      invariant lazy == MigrateAll(schedules[..i])
    {
      var vs := schedules[i];
      var pieces: seq<Piece> := [];
      for j := 0 to |vs.pieces|
        invariant pieces == MigratePieces(vs.pieces[..j])
      {
        var p := vs.pieces[j];
        assert vs.pieces[..j + 1][..j] == vs.pieces[..j];
        pieces := pieces + [Linear(p.cliff, p.cliff + SECONDS_PER_MONTH, p.ratio)];
      }
      assert vs.pieces[..|vs.pieces|] == vs.pieces;
      assert schedules[..i + 1][..i] == schedules[..i];
      lazy := lazy + [VestingSchedule(vs.denom, pieces)];
    }
    assert schedules[..|schedules|] == schedules;
    AllMigratedValid(schedules);
    ok := true;
    for i := 0 to |lazy|
      invariant ok <==> AllSchedulesValid(lazy[..i])
    {
      assert lazy[..i + 1] == lazy[..i] + [lazy[i]];
      var valid := IsValid(lazy[i]);
      ok := ok && valid;
    }
    assert lazy[..|lazy|] == lazy;
  }

  lemma {:induction false} AllMigratedValid(schedules: seq<VestingSchedule>)
    requires AllGraded(schedules)
    ensures AllSchedulesValid(schedules) ==> AllSchedulesValid(MigrateAll(schedules))
    decreases |schedules|
  {
    if schedules != [] && AllSchedulesValid(schedules) {
      AllMigratedValid(schedules[..|schedules| - 1]);
      MigratedIsValid(schedules[|schedules| - 1]);
    }
  }
}
