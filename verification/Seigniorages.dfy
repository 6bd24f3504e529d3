/** What the seigniorage of x/mint adds up to over the epochs of a chain. */
module Seigniorages {
  import opened Wrappers
  import opened Sums
  import opened Coins
  import opened Epoch
  import Dec
  import Mint

  /** The Luna issuance at the end of a day. */
  ghost function IssuanceOn(s: Mint.State, day: int): int
  {
    Mint.Lookup(s.issuance, BookTotal(s.balances, LUNA), LUNA, day)
  }

  /** The last of the seven days of an epoch; before the first epoch, day zero. */
  function EpochEnd(epoch: int): nat
    requires epoch >= -1
  {
    if epoch < 0 then 0 else 7 * epoch + 6
  }

  predicate Complete(s: Mint.State, epoch: int)
    requires epoch >= -1
  {
    EpochEnd(epoch) <= Day(s.height)
  }

  /** A complete epoch's seigniorage is the growth of the issuance since the end of the epoch before it. */
  lemma {:induction false} CompleteEpoch(s: Mint.State, epoch: nat)
    requires Complete(s, epoch)
    ensures Mint.Seigniorage(s, epoch)
         == Dec.Max(0, IssuanceOn(s, EpochEnd(epoch)) - IssuanceOn(s, EpochEnd(epoch - 1)))
  {
    assert Mint.LastDay(s.height, epoch) == EpochEnd(epoch);
    assert Mint.FirstDay(s.height, epoch) == EpochEnd(epoch - 1);
  }

  /** The running epoch's is that of the last seven days, which reach back into the epoch before it. */
  lemma {:induction false} RunningEpoch(s: Mint.State, epoch: nat)
    requires !Complete(s, epoch)
    ensures var today := Day(s.height);
            Mint.Seigniorage(s, epoch) == Dec.Max(0, IssuanceOn(s, today) - IssuanceOn(s, Dec.Max(0, today - 7)))
  {
    assert Mint.LastDay(s.height, epoch) == Day(s.height);
  }

  ghost function SumOfEpochs(s: Mint.State, n: nat): int
  {
    if n == 0 then 0 else SumOfEpochs(s, n - 1) + Mint.Seigniorage(s, n - 1)
  }

  /** How much the issuance shrank over those epochs over which it did. */
  ghost function SumOfLosses(s: Mint.State, n: nat): int
  {
    if n == 0 then 0
    else SumOfLosses(s, n - 1)
         + Dec.Max(0, IssuanceOn(s, EpochEnd(n - 2)) - IssuanceOn(s, EpochEnd(n - 1)))
  }

  /** Nothing is counted twice and nothing left out: the seigniorage of the first `n` epochs, less what the issuance
      lost in epochs in which it shrank, is its growth since day zero. */
  lemma {:induction false} SeigniorageTelescopes(s: Mint.State, n: nat)
    requires Complete(s, n - 1)
    ensures SumOfEpochs(s, n) - SumOfLosses(s, n) == IssuanceOn(s, EpochEnd(n - 1)) - IssuanceOn(s, 0)
    decreases n
  {
    if n > 0 {
      SeigniorageTelescopes(s, n - 1);
      CompleteEpoch(s, n - 1);
    }
  }

  // ---------------------------------------------------------------------------
  // The staking pool

  /** What minting and burning move in the staking pool is what they move of the recorded Luna issuance. */
  lemma {:induction false} PoolFollowsIssuance(s: Mint.State, a: Addr, d: Denom, amount: int)
    requires Mint.Sound(s)
    ensures var minted := Mint.MintCoin(s, a, d, amount);
            minted.Ok? ==> Mint.Current(minted.value, LUNA) == Mint.Current(s, LUNA) + Mint.LunaPart(d, amount)
    ensures var burnt := Mint.BurnCoin(s, a, d, amount);
            burnt.Ok? ==> Mint.Current(burnt.value, LUNA) == Mint.Current(s, LUNA) - Mint.LunaPart(d, amount)
  {
    AccountAtMostTotal(s.balances, a, d);
    if Mint.MintCoin(s, a, d, amount).Ok? {
      MovesTogether(s, a, d, amount, Mint.MintCoin(s, a, d, amount).value);
    }
    if Mint.BurnCoin(s, a, d, amount).Ok? {
      MovesTogether(s, a, d, -amount, Mint.BurnCoin(s, a, d, amount).value);
    }
  }

  lemma {:induction false} MovesTogether(s: Mint.State, a: Addr, d: Denom, x: int, s': Mint.State)
    requires Mint.Sound(s) && Get(Row(s.balances, a), d) + x >= 0
    requires Mint.IssuanceChanged(s.(balances := Credit(s.balances, a, map[d := x])), d, x) == Ok(s')
    ensures Mint.Current(s', LUNA) == Mint.Current(s, LUNA) + if d == LUNA then x else 0
  {
    Mint.CreditAndChangeEvolves(s, a, d, x);
    Mint.EvolvesGap(s, s', LUNA);
  }
}
