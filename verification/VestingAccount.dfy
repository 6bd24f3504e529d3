/** The account objects of types/graded_account.go and types/lazy_graded_account.go. */
module VestingAccounts {
  import opened Wrappers
  import opened Sums
  import opened Coins
  import opened Vesting
  import Dec

  lemma {:induction false} FindFrom(schedules: seq<VestingSchedule>, d: Denom, i: nat)
    requires i <= |schedules| && forall k :: 0 <= k < i ==> schedules[k].denom != d
    ensures FindSchedule(schedules, d) == FindSchedule(schedules[i..], d)
    decreases i
  {
    if i == 0 {
      assert schedules[0..] == schedules;
    } else {
      FindFrom(schedules[1..], d, i - 1);
      assert schedules[1..][i - 1..] == schedules[i..];
    }
  }

  function SpendableGiven(vesting: Coins, coins: Coins, delegatedVesting: Coins, d: Denom): int
  {
    Spendable(Get(coins, d), Get(delegatedVesting, d), Get(vesting, d))
  }

  /** The coins an account holds; an amount of zero is no coin. */
  function Held(coins: Coins): set<Denom>
  {
    set d | d in coins && coins[d] != 0
  }

  /** The spendable coins of the given denominations. */
  function SpendableIn(vesting: Coins, coins: Coins, delegatedVesting: Coins, denoms: set<Denom>): Coins
  {
    map d | d in denoms && SpendableGiven(vesting, coins, delegatedVesting, d) != 0 ::
      SpendableGiven(vesting, coins, delegatedVesting, d)
  }

  predicate NoneNegative(vesting: Coins, coins: Coins, delegatedVesting: Coins, denoms: set<Denom>)
  {
    forall d :: d in denoms ==> SpendableGiven(vesting, coins, delegatedVesting, d) >= 0
  }

  /** A coin of amount zero is left out. */
  function WithCoin(coins: Coins, d: Denom, amount: int): Coins
  {
    if amount != 0 then coins[d := amount] else coins
  }

  lemma {:induction false} SpendableStep(vesting: Coins, coins: Coins, delegatedVesting: Coins, done: set<Denom>,
          d: Denom)
    requires d !in done
    ensures SpendableIn(vesting, coins, delegatedVesting, done + {d})
         == WithCoin(SpendableIn(vesting, coins, delegatedVesting, done), d,
                     SpendableGiven(vesting, coins, delegatedVesting, d))
  {
    var after := SpendableIn(vesting, coins, delegatedVesting, done + {d});
    var before := SpendableIn(vesting, coins, delegatedVesting, done);
    var more := WithCoin(before, d, SpendableGiven(vesting, coins, delegatedVesting, d));
    forall e
      ensures (e in after <==> e in more) && Get(after, e) == Get(more, e)
    {
    }
    SameMap(after, more);
  }

  lemma {:induction false} NegativeStep(vesting: Coins, coins: Coins, delegatedVesting: Coins, done: set<Denom>,
          d: Denom)
    ensures NoneNegative(vesting, coins, delegatedVesting, done + {d})
       <==> (NoneNegative(vesting, coins, delegatedVesting, done)
             && SpendableGiven(vesting, coins, delegatedVesting, d) >= 0)
  {
  }

  /** The loop of `spendableCoins`; fails where a coin would be negative. */
  method SpendableFrom(vesting: Coins, coins: Coins, delegatedVesting: Coins) returns (ok: bool, spendable: Coins)
    ensures ok <==> NoneNegative(vesting, coins, delegatedVesting, Held(coins))
    ensures spendable == SpendableIn(vesting, coins, delegatedVesting, Held(coins))
  {
    ok, spendable := true, map[];
    var todo := Held(coins);
    ghost var done: set<Denom> := {};
    while todo != {}
      invariant done !! todo && done + todo == Held(coins)
      invariant ok <==> NoneNegative(vesting, coins, delegatedVesting, done)
      invariant spendable == SpendableIn(vesting, coins, delegatedVesting, done)
      decreases todo
    {
      var d :| d in todo;
      SpendableStep(vesting, coins, delegatedVesting, done, d);
      NegativeStep(vesting, coins, delegatedVesting, done, d);
      MoveOne(Held(coins), done, todo, d);
      var amount := Dec.Min(Get(coins, d) + Get(delegatedVesting, d) - Get(vesting, d), Get(coins, d));
      ok := ok && amount >= 0;
      spendable := WithCoin(spendable, d, amount);
      todo := todo - {d};
      done := done + {d};
    }
    assert done == Held(coins);
  }

  lemma {:induction false} HeldIsNonZero(coins: Coins)
    ensures forall d :: d in Held(coins) <==> Get(coins, d) != 0
  {
  }

  ghost predicate NothingOwed(original: Coins, schedules: seq<VestingSchedule>, t: int)
  {
    forall d :: d in original ==> StillVesting(original, schedules, d, t) >= 0
  }

  class VestingAccount {
    const original: Coins
    const schedules: seq<VestingSchedule>
    var coins: Coins
    var delegatedVesting: Coins
    var delegatedFree: Coins

    constructor (coins: Coins, schedules: seq<VestingSchedule>)
      ensures this.coins == original == coins && this.schedules == schedules
      ensures delegatedVesting == map[] && delegatedFree == map[]
    {
      this.original, this.schedules, this.coins := coins, schedules, coins;
      delegatedVesting, delegatedFree := map[], map[];
    }

    /** The account as a value, at a time. */
    ghost function Value(received: Coins, spent: Coins, now: int): Account
      reads this
    {
      Account(original, schedules, coins, delegatedVesting, delegatedFree, received, spent, now)
    }

    method GetVestingSchedule(d: Denom) returns (found: Option<VestingSchedule>)
      ensures found == FindSchedule(schedules, d)
    {
      for i := 0 to |schedules|
        invariant forall k :: 0 <= k < i ==> schedules[k].denom != d
      {
        FindFrom(schedules, d, i);
        if schedules[i].denom == d {
          return Some(schedules[i]);
        }
      }
      FindFrom(schedules, d, |schedules|);
      return None;
    }

    /** The vested part of one original coin. */
    method VestedCoin(d: Denom, t: int) returns (amount: int)
      ensures amount == Vested(original, schedules, d, t)
    {
      var found := GetVestingSchedule(d);
      if found.Some? {
        var ratio := GetVestedRatio(found.value, t);
        amount := Dec.RoundInt(Dec.Mul(Dec.FromInt(Get(original, d)), ratio));
      } else {
        amount := Get(original, d);
      }
    }

    /** `GetVestingCoins`: original less vested, coin by coin. Fails if any coin would be negative. */
    method GetVestingCoins(t: int) returns (ok: bool, vesting: Coins)
      ensures ok <==> forall d :: d in original ==> StillVesting(original, schedules, d, t) >= 0
      ensures ok ==> vesting == map d | d in original :: StillVesting(original, schedules, d, t)
    {
      ok, vesting := true, map[];
      var todo := original.Keys;
      while todo != {}
        invariant todo <= original.Keys
        invariant ok <==> forall d :: d in original && d !in todo ==> StillVesting(original, schedules, d, t) >= 0
        invariant vesting == map d | d in original && d !in todo :: StillVesting(original, schedules, d, t)
        decreases todo
      {
        var d :| d in todo;
        var vested := VestedCoin(d, t);
        var left := original[d] - vested;
        assert left == StillVesting(original, schedules, d, t);
        ok := ok && left >= 0;
        vesting := vesting[d := left];
        todo := todo - {d};
      }
    }

    /** `SpendableCoins`. Fails if any coin would be negative. */
    method SpendableCoins(t: int) returns (ok: bool, spendable: Coins)
      ensures var a := Value(map[], map[], t);
              && (ok <==> NothingOwed(original, schedules, t) && !NegativeCoin(a))
              && (ok ==> spendable == map d | d in Held(coins) && SpendableOf(a, d) != 0 :: SpendableOf(a, d))
    {
      var vesting;
      ok, vesting := GetVestingCoins(t);
      if !ok {
        return false, map[];
      }
      ok, spendable := SpendableFrom(vesting, coins, delegatedVesting);
      LockedIsVesting(Value(map[], map[], t), vesting);
      HeldIsNonZero(coins);
    }

    /** `TrackDelegation`. A coin that is refused panics, and the whole delegation is undone with it. */
    method TrackDelegation(t: int, amount: seq<Coin>) returns (ok: bool)
      modifies this
      ensures var a := old(Value(map[], map[], t));
              && (ok <==> NothingOwed(original, schedules, t) && Track(a, amount).Some?)
              && Value(map[], map[], t) == if ok then Track(a, amount).value else a
    {
      ghost var a := Value(map[], map[], t);
      var vesting;
      ok, vesting := GetVestingCoins(t);
      if !ok {
        return;
      }
      LockedIsVesting(a, vesting);
      var tracked := TrackCoins(a, vesting, coins, delegatedVesting, delegatedFree, amount);
      ok := tracked.Some?;
      if ok {
        coins, delegatedVesting, delegatedFree := tracked.value.coins, tracked.value.delegatedVesting,
            tracked.value.delegatedFree;
      }
    }
  }

  /** What a delegation moves coins between. */
  datatype Purses = Purses(coins: Coins, delegatedVesting: Coins, delegatedFree: Coins)

  ghost function With(a: Account, p: Purses): Account
  {
    a.(coins := p.coins, delegatedVesting := p.delegatedVesting, delegatedFree := p.delegatedFree)
  }

  /** The loop of `trackDelegation`, coin by coin. */
  method TrackCoins(ghost a: Account, vesting: Coins, coins: Coins, dv: Coins, df: Coins, amount: seq<Coin>)
    returns (tracked: Option<Purses>)
    requires a == With(a, Purses(coins, dv, df)) && forall d :: Get(vesting, d) == Locked(a, d)
    ensures tracked.Some? <==> Track(a, amount).Some?
    ensures tracked.Some? ==> Track(a, amount) == Some(With(a, tracked.value))
  {
    var p := Purses(coins, dv, df);
    for i := 0 to |amount|
      invariant Track(a, amount[..i]) == Some(With(a, p))
    {
      var c := amount[i];
      TrackNext(a, amount, i, p);
      if c.amount <= 0 || Get(p.coins, c.denom) < c.amount {
        TrackFails(a, amount, i + 1);
        return None;
      }
      p := Delegated(p, Get(vesting, c.denom), c);
    }
    assert amount[..|amount|] == amount;
    return Some(p);
  }

  /** One coin goes out, as vesting as far as there is any, the rest as free. */
  function Delegated(p: Purses, vesting: int, c: Coin): Purses
  {
    var x := Dec.Min(Dec.Max(vesting - Get(p.delegatedVesting, c.denom), 0), c.amount);
    var y := c.amount - x;
    Purses(Plus(p.coins, c.denom, -c.amount), Plus(p.delegatedVesting, c.denom, x), Plus(p.delegatedFree, c.denom, y))
  }

  lemma {:induction false} TrackNext(a: Account, amount: seq<Coin>, i: nat, p: Purses)
    requires i < |amount| && Track(a, amount[..i]) == Some(With(a, p))
    ensures var c := amount[i];
            Track(a, amount[..i + 1])
            == if c.amount <= 0 || Get(p.coins, c.denom) < c.amount then None
               else Some(With(a, Delegated(p, Locked(a, c.denom), c)))
  {
    assert amount[..i + 1][..i] == amount[..i];
    assert Locked(With(a, p), amount[i].denom) == Locked(a, amount[i].denom);
  }

  /** A delegation one of whose coins is refused is refused. */
  lemma {:induction false} TrackFails(a: Account, amount: seq<Coin>, i: nat)
    requires i <= |amount| && Track(a, amount[..i]).None?
    ensures Track(a, amount).None?
    decreases |amount| - i
  {
    if i == |amount| {
      assert amount[..i] == amount;
    } else {
      assert amount[..i + 1][..i] == amount[..i];
      TrackFails(a, amount, i + 1);
    }
  }

  ghost predicate IsVesting(a: Account, vesting: Coins)
  {
    vesting == map d | d in a.original :: StillVesting(a.original, a.schedules, d, a.now)
  }

  lemma {:induction false} LockedIsVesting(a: Account, vesting: Coins)
    requires IsVesting(a, vesting)
    ensures forall d :: Get(vesting, d) == Locked(a, d)
    ensures forall d :: SpendableGiven(vesting, a.coins, a.delegatedVesting, d) == SpendableOf(a, d)
  {
    NoneVestingOutside(a.original, a.schedules, a.now);
  }

  lemma {:induction false} NoneVestingOutside(original: Coins, schedules: seq<VestingSchedule>, t: int)
    ensures forall d :: d !in original ==> StillVesting(original, schedules, d, t) == 0
  {
    forall d | d !in original
      ensures StillVesting(original, schedules, d, t) == 0
    {
      match FindSchedule(schedules, d)
      case None =>
      case Some(vs) =>
        Dec.MulFromInt(0, VestedRatio(vs.pieces, t));
        Dec.ChopExact(0);
    }
  }
}
