/**
 Monetary policy of x/treasury: the two lazily filled tables of rates by epoch, the clamped controller that moves
 them, and the windowed indicators that drive it.
 */
module Treasury {
  import opened Wrappers
  import Dec

  const DEFAULT_TAX_RATE: int := 1_000_000_000_000_000
  const DEFAULT_REWARD_WEIGHT: int := 50_000_000_000_000_000

  /** A rate stored for an epoch. */
  type Rates = map<int, int>

  // ---------------------------------------------------------------------------
  // Lookups

  /** The rate stored for the last epoch not after the one asked for, if there is any. */
  function Found(rates: Rates, epoch: int): Option<int>
    decreases epoch
  {
    if epoch < 0 then None
    else if epoch in rates then Some(rates[epoch])
    else Found(rates, epoch - 1)
  }

  /** What a lookup is meant to return: the rate found, or else a default. */
  function LastStored(rates: Rates, default: int, epoch: int): int
  {
    match Found(rates, epoch)
    case Some(rate) => rate
    case None => default
  }

  /** The table after `GetTaxRate`, which fills every epoch on its way back. */
  function TaxFilled(rates: Rates, epoch: int): Rates
    decreases epoch
  {
    if epoch in rates then rates
    else (if epoch <= 0 then rates
        else TaxFilled(rates, epoch - 1))[epoch := LastStored(rates, DEFAULT_TAX_RATE, epoch)]
  }

  /** What `GetRewardWeight` answers: the default only for epoch zero itself, and otherwise, where nothing is found, a
      decimal that was never set. */
  function WeightFound(rates: Rates, epoch: int): Option<int>
  {
    match Found(rates, epoch)
    case Some(rate) => Some(rate)
    case None => if epoch <= 0 then Some(DEFAULT_REWARD_WEIGHT) else None
  }

  /** A decimal that was never set is stored as zero. */
  function Stored(answer: Option<int>): int
  {
    match answer
    case Some(rate) => rate
    case None => 0
  }

  predicate StoredUpTo(rates: Rates, epoch: int)
  {
    exists e :: 0 <= e <= epoch && e in rates
  }

  lemma {:induction false} FoundIfStored(rates: Rates, epoch: int)
    ensures Found(rates, epoch).Some? <==> StoredUpTo(rates, epoch)
    decreases epoch
  {
    if epoch >= 0 && epoch !in rates {
      FoundIfStored(rates, epoch - 1);
      assert StoredUpTo(rates, epoch) <==> StoredUpTo(rates, epoch - 1);
    }
  }

  /** The loop falls back to the default only in epoch zero: it answers with the last rate set, or else the default,
      exactly when a weight is stored for some epoch up to the one asked for or that is epoch zero. */
  lemma {:induction false} RewardWeightExact(rates: Rates, epoch: nat)
    ensures WeightFound(rates, epoch) == Some(LastStored(rates, DEFAULT_REWARD_WEIGHT, epoch))
       <==> epoch == 0 || StoredUpTo(rates, epoch)
  {
    FoundIfStored(rates, epoch);
  }

  /** Asked for epoch one of an empty table it answers with a decimal that was never set, and stores zero. From then on
      zero is the weight of that epoch, and of all later ones until a weight is set. */
  lemma {:induction false} RewardWeightOfNothing(epoch: nat)
    requires epoch > 0
    ensures WeightFound(map[], 1) == None
    ensures WeightFound(map[1 := Stored(WeightFound(map[], 1))], epoch) == Some(0)
    decreases epoch
  {
    assert Found(map[], 0) == None;
    if epoch > 1 {
      RewardWeightOfNothing(epoch - 1);
    }
  }

  // ---------------------------------------------------------------------------
  // The history of a rate

  datatype Setting = Setting(epoch: int, rate: int)

  /** The value last set at or before an epoch, or else the default. */
  function LastSet(sets: seq<Setting>, default: int, epoch: int): int
  {
    if sets == [] then default
    else
      var last := sets[|sets| - 1];
      if last.epoch <= epoch then last.rate else LastSet(sets[..|sets| - 1], default, epoch)
  }

  ghost predicate SetAt(sets: seq<Setting>, epoch: int)
  {
    exists i :: 0 <= i < |sets| && sets[i].epoch == epoch
  }

  /** Every epoch that was set is stored, and every epoch stored has the value last set. */
  ghost predicate Represents(rates: Rates, sets: seq<Setting>, default: int, now: int)
  {
    && (forall i :: 0 <= i < |sets| ==> 0 <= sets[i].epoch <= now)
    && (forall e :: SetAt(sets, e) ==> e in rates)
    && (forall e :: e in rates ==> 0 <= e <= now && rates[e] == LastSet(sets, default, e))
  }

  lemma {:induction false} NotSetNoChange(sets: seq<Setting>, default: int, epoch: int)
    requires !SetAt(sets, epoch)
    ensures LastSet(sets, default, epoch) == LastSet(sets, default, epoch - 1)
    decreases |sets|
  {
    if sets != [] {
      var front := sets[..|sets| - 1];
      assert sets[|sets| - 1].epoch != epoch;
      assert SetAt(front, epoch) ==> SetAt(sets, epoch);
      NotSetNoChange(front, default, epoch);
    }
  }

  lemma {:induction false} NeverSetBefore(sets: seq<Setting>, default: int, epoch: int)
    requires forall i :: 0 <= i < |sets| ==> sets[i].epoch > epoch
    ensures LastSet(sets, default, epoch) == default
    decreases |sets|
  {
    if sets != [] {
      NeverSetBefore(sets[..|sets| - 1], default, epoch);
    }
  }

  /** A lookup returns the value last set at or before the epoch, however much of the table is filled. */
  lemma {:induction false} LookupIsLastSet(rates: Rates, sets: seq<Setting>, default: int, now: int, epoch: int)
    requires Represents(rates, sets, default, now)
    ensures LastStored(rates, default, epoch) == LastSet(sets, default, epoch)
    decreases epoch
  {
    if epoch < 0 {
      NeverSetBefore(sets, default, epoch);
    } else if epoch !in rates {
      NotSetNoChange(sets, default, epoch);
      LookupIsLastSet(rates, sets, default, now, epoch - 1);
    }
  }

  /** Storing what a lookup of an epoch returns changes no history. */
  lemma {:induction false} MemoKeeps(rates: Rates, sets: seq<Setting>, default: int, now: int, epoch: int)
    requires Represents(rates, sets, default, now) && 0 <= epoch <= now
    ensures Represents(rates[epoch := LastStored(rates, default, epoch)], sets, default, now)
  {
    LookupIsLastSet(rates, sets, default, now, epoch);
  }

  lemma {:induction false} FillKeeps(rates: Rates, sets: seq<Setting>, now: int, epoch: int)
    requires Represents(rates, sets, DEFAULT_TAX_RATE, now) && 0 <= epoch <= now
    ensures Represents(TaxFilled(rates, epoch), sets, DEFAULT_TAX_RATE, now)
    decreases epoch
  {
    if epoch !in rates {
      LookupIsLastSet(rates, sets, DEFAULT_TAX_RATE, now, epoch);
      if epoch > 0 {
        FillKeeps(rates, sets, now, epoch - 1);
      }
    }
  }

  /** Setting the rate of the current epoch. */
  lemma {:induction false} SetKeeps(rates: Rates, sets: seq<Setting>, default: int, now: int, rate: int)
    requires Represents(rates, sets, default, now) && now >= 0
    ensures Represents(rates[now := rate], sets + [Setting(now, rate)], default, now)
  {
    var more := sets + [Setting(now, rate)];
    assert more[..|sets|] == sets;
    assert SetAt(more, now) by {
      assert more[|sets|].epoch == now;
    }
    forall e | SetAt(more, e)
      ensures e in rates[now := rate]
    {
      if e != now {
        var i :| 0 <= i < |more| && more[i].epoch == e;
        assert sets[i].epoch == e;
        assert SetAt(sets, e);
      }
    }
  }

  // ---------------------------------------------------------------------------
  // The controller

  datatype Policy = Policy(rateMin: int, rateMax: int, changeRateMax: int)

  predicate InBounds(pc: Policy, rate: int) { pc.rateMin <= rate <= pc.rateMax }

  function Bounded(pc: Policy, rate: int): int
  {
    if rate < pc.rateMin then pc.rateMin else if rate > pc.rateMax then pc.rateMax else rate
  }

  /** `Clamp`. */
  function Clamp(pc: Policy, prevRate: int, newRate: int): int
  {
    var rate := Bounded(pc, newRate);
    if rate > prevRate then (if rate - prevRate > pc.changeRateMax then prevRate + pc.changeRateMax else rate)
    else if Dec.Abs(rate - prevRate) > pc.changeRateMax then prevRate - pc.changeRateMax
    else rate
  }

  /** The clamp keeps rates within bounds exactly when `changeRateMax` is not negative: with a negative one even a rate
      at its maximum is pushed beyond it. Nothing in the parameter validation demands it. */
  lemma {:induction false} ClampKeepsBounds(pc: Policy)
    requires pc.rateMin <= pc.rateMax
    ensures (forall prev, target :: InBounds(pc, prev) ==> InBounds(pc, Clamp(pc, prev, target)))
       <==> pc.changeRateMax >= 0
  {
    if pc.changeRateMax < 0 {
      assert InBounds(pc, pc.rateMax) && Clamp(pc, pc.rateMax, pc.rateMax) == pc.rateMax - pc.changeRateMax;
    }
  }

  /** And then it moves them by at most `changeRateMax`. */
  lemma {:induction false} ClampStep(pc: Policy, prev: int, target: int)
    requires pc.changeRateMax >= 0
    ensures Dec.Abs(Clamp(pc, prev, target) - prev) <= pc.changeRateMax
  {
  }

  function Repeated(pc: Policy, rate: int, target: int, n: nat): int
  {
    if n == 0 then rate else Clamp(pc, Repeated(pc, rate, target, n - 1), target)
  }

  /** One clamp closes the gap to the bounded target by `changeRateMax`, or entirely. */
  lemma {:induction false} ClampClosesGap(pc: Policy, rate: int, target: int)
    requires pc.changeRateMax >= 0
    ensures Dec.Abs(Clamp(pc, rate, target) - Bounded(pc, target))
         == Dec.Max(0, Dec.Abs(rate - Bounded(pc, target)) - pc.changeRateMax)
  {
  }

  /** Repeated clamping towards a fixed target closes the gap by `changeRateMax` each time until it is closed. */
  lemma {:induction false} GapAfter(pc: Policy, rate: int, target: int, n: nat)
    requires pc.changeRateMax >= 0
    ensures Dec.Abs(Repeated(pc, rate, target, n) - Bounded(pc, target))
         == Dec.Max(0, Dec.Abs(rate - Bounded(pc, target)) - n * pc.changeRateMax)
    decreases n
  {
    if n > 0 {
      GapAfter(pc, rate, target, n - 1);
      ClampClosesGap(pc, Repeated(pc, rate, target, n - 1), target);
      Dec.OneMore(n - 1, pc.changeRateMax);
      Dec.TimesMonotone(0, n - 1, pc.changeRateMax);
    }
  }

  /** So the bounded target is reached after exactly the updates needed to cover the gap, and kept from then on. */
  lemma {:induction false} ReachesTarget(pc: Policy, rate: int, target: int, n: nat)
    requires pc.changeRateMax >= 0
    ensures Repeated(pc, rate, target, n) == Bounded(pc, target)
       <==> n * pc.changeRateMax >= Dec.Abs(rate - Bounded(pc, target))
  {
    GapAfter(pc, rate, target, n);
  }

  // ---------------------------------------------------------------------------
  // Policy updates

  /** Where the tax rate is headed: up to the maximum when there was no revenue. */
  function TaxTarget(pc: Policy, prev: int, tlYear: int, tlMonth: int, increment: int): int
  {
    if tlMonth == 0 then pc.rateMax
    else Dec.Quo(Dec.Mul(prev, Dec.Mul(tlYear, increment)), tlMonth)
  }

  /** Where the reward weight is headed. None when the seigniorage burden rounds to zero, and the division by it
      panics. */
  function RewardTarget(pc: Policy, prev: int, seigniorageSum: int, totalSum: int, burdenTarget: int): Option<int>
  {
    if totalSum == 0 || seigniorageSum == 0 then Some(pc.rateMax)
    else
      var burden := Dec.Quo(seigniorageSum, totalSum);
      if burden == 0 then None else Some(Dec.Mul(prev, Dec.Quo(burdenTarget, burden)))
  }

  /** The reward update panics exactly when there was seigniorage, but at most half of 10^-18 of all rewards. */
  lemma {:induction false} RewardUpdatePanics(pc: Policy, prev: int, seigniorageSum: nat, totalSum: nat,
          burdenTarget: int)
    ensures RewardTarget(pc, prev, seigniorageSum, totalSum, burdenTarget).None?
       <==> seigniorageSum > 0 && totalSum > 0 && 2 * (seigniorageSum * Dec.ONE * Dec.ONE / totalSum) <= Dec.ONE
  {
    if seigniorageSum > 0 && totalSum > 0 {
      Dec.DivNonNegative(seigniorageSum * Dec.ONE * Dec.ONE, totalSum);
      RoundsToZero(seigniorageSum * Dec.ONE * Dec.ONE / totalSum);
    }
  }

  /** A seigniorage of one micro-SDR against rewards of 2 * 10^18 of them is such a case, whatever the policy. */
  lemma {:induction false} RewardUpdateCanPanic(pc: Policy, prev: int, burdenTarget: int)
    ensures RewardTarget(pc, prev, Dec.FromInt(1), Dec.FromInt(2 * Dec.ONE), burdenTarget) == None
  {
    RewardUpdatePanics(pc, prev, Dec.FromInt(1), Dec.FromInt(2 * Dec.ONE), burdenTarget);
    Dec.DivUnique(Dec.ONE * Dec.ONE * Dec.ONE, 2 * Dec.ONE * Dec.ONE, Dec.ONE / 2);
  }

  lemma {:induction false} RoundsToZero(n: nat)
    ensures Dec.Chop(n) == 0 <==> 2 * n <= Dec.ONE
  {
    Dec.ChopNearest(n);
    if 2 * n <= Dec.ONE {
      Dec.ChopUnique(n, 0);
    }
  }

  // ---------------------------------------------------------------------------
  // Runs

  datatype Params = Params(tax: Policy, reward: Policy, increment: int, burdenTarget: int)

  /** The rates, with everything that was ever set. */
  datatype State = State(epoch: nat, taxRates: Rates, weights: Rates, taxSets: seq<Setting>, weightSets: seq<Setting>)

  datatype Event =
    | ReadTax(epoch: nat)
    | ReadWeight(epoch: nat)
    | SetTaxTo(rate: int)
    | SetWeightTo(weight: int)
    | EpochEnd(probation: bool, tlYear: int, tlMonth: int, seigniorageSum: int, totalSum: int)

  function SetTax(s: State, rate: int): State
  {
    s.(taxRates := s.taxRates[s.epoch := rate], taxSets := s.taxSets + [Setting(s.epoch, rate)])
  }

  function SetWeight(s: State, weight: int): State
  {
    s.(weights := s.weights[s.epoch := weight], weightSets := s.weightSets + [Setting(s.epoch, weight)])
  }

  function TaxOf(s: State, epoch: int): int { LastStored(s.taxRates, DEFAULT_TAX_RATE, epoch) }

  function WeightOf(s: State, epoch: int): Option<int> { WeightFound(s.weights, epoch) }

  function UpdateTax(s: State, p: Params, tlYear: int, tlMonth: int): State
  {
    var prev := TaxOf(s, s.epoch);
    var target := TaxTarget(p.tax, prev, tlYear, tlMonth, p.increment);
    SetTax(s.(taxRates := TaxFilled(s.taxRates, s.epoch)), Clamp(p.tax, prev, target))
  }

  /** None where the update panics: on a weight that was never set, or on a burden that rounds to zero. */
  function NewWeight(prev: Option<int>, p: Params, seigniorageSum: int, totalSum: int): Option<int>
  {
    match prev
    case None => None
    case Some(weight) =>
      match RewardTarget(p.reward, weight, seigniorageSum, totalSum, p.burdenTarget)
      case None => None
      case Some(target) => Some(Clamp(p.reward, weight, target))
  }

  function UpdateWeight(s: State, p: Params, seigniorageSum: int, totalSum: int): Option<State>
  {
    match NewWeight(WeightOf(s, s.epoch), p, seigniorageSum, totalSum)
    case None => None
    case Some(weight) => Some(SetWeight(s, weight))
  }

  /** The end of an epoch moves on to the next one; a panic halts the chain where it is. */
  function Exec(s: State, p: Params, e: Event): State
  {
    match e
    case ReadTax(epoch) => if epoch > s.epoch then s else s.(taxRates := TaxFilled(s.taxRates, epoch))
    case ReadWeight(epoch) => if epoch > s.epoch then s
        else s.(weights := s.weights[epoch := Stored(WeightOf(s, epoch))])
    case SetTaxTo(rate) => SetTax(s, rate)
    case SetWeightTo(weight) => SetWeight(s, weight)
    case EpochEnd(probation, tlYear, tlMonth, seigniorageSum, totalSum) =>
      if probation then s.(epoch := s.epoch + 1)
      else
        match UpdateWeight(UpdateTax(s, p, tlYear, tlMonth), p, seigniorageSum, totalSum)
        case None => s
        case Some(t) => t.(epoch := t.epoch + 1)
  }

  function Run(s: State, p: Params, events: seq<Event>): State
  {
    if events == [] then s else Exec(Run(s, p, events[..|events| - 1]), p, events[|events| - 1])
  }

  /** A chain on which nothing was ever stored. */
  const EMPTY: State := State(0, map[], map[], [], [])

  // ---------------------------------------------------------------------------
  // Lookups over every run

  ghost predicate TaxTable(s: State) { Represents(s.taxRates, s.taxSets, DEFAULT_TAX_RATE, s.epoch) }

  lemma {:induction false} NotSetNext(rates: Rates, sets: seq<Setting>, default: int, now: int)
    requires Represents(rates, sets, default, now)
    ensures Represents(rates, sets, default, now + 1)
  {
  }

  lemma {:induction false} UpdateTaxKeepsTable(s: State, p: Params, tlYear: int, tlMonth: int)
    requires TaxTable(s)
    ensures TaxTable(UpdateTax(s, p, tlYear, tlMonth)) && UpdateTax(s, p, tlYear, tlMonth).epoch == s.epoch
  {
    var prev := TaxOf(s, s.epoch);
    var rate := Clamp(p.tax, prev, TaxTarget(p.tax, prev, tlYear, tlMonth, p.increment));
    FillKeeps(s.taxRates, s.taxSets, s.epoch, s.epoch);
    SetKeeps(TaxFilled(s.taxRates, s.epoch), s.taxSets, DEFAULT_TAX_RATE, s.epoch, rate);
  }

  lemma {:induction false} ExecKeepsTaxTable(s: State, p: Params, e: Event)
    requires TaxTable(s)
    ensures TaxTable(Exec(s, p, e))
  {
    match e
    case ReadTax(epoch) =>
      if epoch <= s.epoch { FillKeeps(s.taxRates, s.taxSets, s.epoch, epoch); }
    case ReadWeight(_) =>
    case SetTaxTo(rate) => SetKeeps(s.taxRates, s.taxSets, DEFAULT_TAX_RATE, s.epoch, rate);
    case SetWeightTo(_) =>
    case EpochEnd(probation, tlYear, tlMonth, seigniorageSum, totalSum) =>
      if probation {
        NotSetNext(s.taxRates, s.taxSets, DEFAULT_TAX_RATE, s.epoch);
      } else {
        var t := UpdateTax(s, p, tlYear, tlMonth);
        UpdateTaxKeepsTable(s, p, tlYear, tlMonth);
        NotSetNext(t.taxRates, t.taxSets, DEFAULT_TAX_RATE, s.epoch);
      }
  }

  lemma {:induction false} RunKeepsTaxTable(p: Params, events: seq<Event>)
    ensures TaxTable(Run(EMPTY, p, events))
    decreases |events|
  {
    if events != [] {
      RunKeepsTaxTable(p, events[..|events| - 1]);
      ExecKeepsTaxTable(Run(EMPTY, p, events[..|events| - 1]), p, events[|events| - 1]);
    }
  }

  /** Over every run of reads, sets of any rate and ends of epochs, from an empty table and under any parameters,
      `GetTaxRate` answers with the rate last set at or before the epoch, or else the default. */
  lemma {:induction false} TaxLookupIsLastSet(p: Params, events: seq<Event>, epoch: nat)
    requires epoch <= Run(EMPTY, p, events).epoch
    ensures var s := Run(EMPTY, p, events);
            TaxOf(s, epoch) == LastSet(s.taxSets, DEFAULT_TAX_RATE, epoch)
  {
    var s := Run(EMPTY, p, events);
    RunKeepsTaxTable(p, events);
    LookupIsLastSet(s.taxRates, s.taxSets, DEFAULT_TAX_RATE, s.epoch, epoch);
  }

  /** A weight is stored for epoch zero by the time it is over. */
  predicate WeightInTime(s: State) { s.epoch > 0 ==> 0 in s.weights }

  ghost predicate WeightTable(s: State)
  {
    Represents(s.weights, s.weightSets, DEFAULT_REWARD_WEIGHT, s.epoch) && WeightInTime(s)
  }

  lemma {:induction false} WeightIsLastSet(s: State, epoch: nat)
    requires WeightTable(s) && epoch <= s.epoch
    ensures WeightOf(s, epoch) == Some(LastSet(s.weightSets, DEFAULT_REWARD_WEIGHT, epoch))
  {
    if epoch > 0 {
      assert StoredUpTo(s.weights, epoch);
    }
    RewardWeightExact(s.weights, epoch);
    LookupIsLastSet(s.weights, s.weightSets, DEFAULT_REWARD_WEIGHT, s.epoch, epoch);
  }

  lemma {:induction false} UpdateWeightKeepsTable(s: State, p: Params, seigniorageSum: int, totalSum: int)
    requires WeightTable(s) && UpdateWeight(s, p, seigniorageSum, totalSum).Some?
    ensures var t := UpdateWeight(s, p, seigniorageSum, totalSum).value;
            && Represents(t.weights, t.weightSets, DEFAULT_REWARD_WEIGHT, s.epoch) && 0 in t.weights
            && t.epoch == s.epoch && t.taxRates == s.taxRates && t.taxSets == s.taxSets
  {
    var weight := NewWeight(WeightOf(s, s.epoch), p, seigniorageSum, totalSum).value;
    SetKeeps(s.weights, s.weightSets, DEFAULT_REWARD_WEIGHT, s.epoch, weight);
  }

  /** Every step keeps the table, unless it ends epoch zero with no weight stored. */
  lemma {:induction false} ExecKeepsWeightTable(s: State, p: Params, e: Event)
    requires WeightTable(s) && WeightInTime(Exec(s, p, e))
    ensures WeightTable(Exec(s, p, e))
  {
    match e
    case ReadTax(_) =>
    case ReadWeight(epoch) =>
      if epoch <= s.epoch {
        WeightIsLastSet(s, epoch);
        LookupIsLastSet(s.weights, s.weightSets, DEFAULT_REWARD_WEIGHT, s.epoch, epoch);
        MemoKeeps(s.weights, s.weightSets, DEFAULT_REWARD_WEIGHT, s.epoch, epoch);
      }
    case SetTaxTo(_) =>
    case SetWeightTo(weight) => SetKeeps(s.weights, s.weightSets, DEFAULT_REWARD_WEIGHT, s.epoch, weight);
    case EpochEnd(probation, tlYear, tlMonth, seigniorageSum, totalSum) =>
      if probation {
        NotSetNext(s.weights, s.weightSets, DEFAULT_REWARD_WEIGHT, s.epoch);
      } else {
        var t := UpdateTax(s, p, tlYear, tlMonth);
        if UpdateWeight(t, p, seigniorageSum, totalSum).Some? {
          UpdateWeightKeepsTable(t, p, seigniorageSum, totalSum);
          var u := UpdateWeight(t, p, seigniorageSum, totalSum).value;
          NotSetNext(u.weights, u.weightSets, DEFAULT_REWARD_WEIGHT, s.epoch);
        }
      }
  }

  /** The lookup is right about every epoch that has begun. */
  ghost predicate WeightsRight(s: State)
  {
    forall epoch: nat :: epoch <= s.epoch
        ==> WeightOf(s, epoch) == Some(LastSet(s.weightSets, DEFAULT_REWARD_WEIGHT, epoch))
  }

  /** At every moment of the run. */
  ghost predicate WeightsAlwaysRight(p: Params, events: seq<Event>)
  {
    WeightsRight(Run(EMPTY, p, events)) && (events == [] || WeightsAlwaysRight(p, events[..|events| - 1]))
  }

  ghost predicate WeightAlwaysInTime(p: Params, events: seq<Event>)
  {
    WeightInTime(Run(EMPTY, p, events)) && (events == [] || WeightAlwaysInTime(p, events[..|events| - 1]))
  }

  lemma {:induction false} RunKeepsWeightTable(p: Params, events: seq<Event>)
    requires WeightAlwaysInTime(p, events)
    ensures WeightTable(Run(EMPTY, p, events))
    decreases |events|
  {
    if events != [] {
      RunKeepsWeightTable(p, events[..|events| - 1]);
      ExecKeepsWeightTable(Run(EMPTY, p, events[..|events| - 1]), p, events[|events| - 1]);
    }
  }

  /** A step that ends epoch zero with no weight stored makes the lookup of epoch one answer with an unset decimal. */
  lemma {:induction false} LateWeightIsWrong(s: State, p: Params, e: Event)
    requires WeightTable(s) && !WeightInTime(Exec(s, p, e))
    ensures !WeightsRight(Exec(s, p, e))
  {
    var t := Exec(s, p, e);
    assert e.EpochEnd? && e.probation;
    assert t.epoch == 1 && t.weights == s.weights && 0 !in s.weights && 1 !in s.weights;
    assert Found(t.weights, 0) == None && WeightOf(t, 1) == None;
  }

  /** Over every run of reads, sets of any weight and ends of epochs, from an empty table and under any parameters,
      `GetRewardWeight` always answers with the weight last set at or before the epoch, or else the default, if and only
      if a weight is stored for epoch zero by the time it is over. */
  lemma {:induction false} WeightLookupIsLastSet(p: Params, events: seq<Event>)
    ensures WeightsAlwaysRight(p, events) <==> WeightAlwaysInTime(p, events)
    decreases |events|
  {
    var s := Run(EMPTY, p, events);
    if events != [] {
      WeightLookupIsLastSet(p, events[..|events| - 1]);
    }
    if WeightAlwaysInTime(p, events) {
      RunKeepsWeightTable(p, events);
      forall epoch: nat | epoch <= s.epoch
        ensures WeightOf(s, epoch) == Some(LastSet(s.weightSets, DEFAULT_REWARD_WEIGHT, epoch))
      {
        WeightIsLastSet(s, epoch);
      }
    } else if events != [] && WeightAlwaysInTime(p, events[..|events| - 1]) {
      RunKeepsWeightTable(p, events[..|events| - 1]);
      LateWeightIsWrong(Run(EMPTY, p, events[..|events| - 1]), p, events[|events| - 1]);
    }
  }

  // ---------------------------------------------------------------------------
  // The controller over every run

  predicate ValidParams(p: Params)
  {
    && p.tax.rateMin <= p.tax.rateMax && p.reward.rateMin <= p.reward.rateMax
    && p.tax.changeRateMax >= 0 && p.reward.changeRateMax >= 0
  }

  /** After genesis rates are set by the controller alone. */
  predicate Controlled(e: Event) { !e.SetTaxTo? && !e.SetWeightTo? }

  /** `InitGenesis`: a tax rate and a reward weight set in epoch zero. */
  function GenesisState(tax: int, weight: int): State
  {
    State(0, map[0 := tax], map[0 := weight], [Setting(0, tax)], [Setting(0, weight)])
  }

  /** Within bounds in every epoch, and moving no more than allowed from one epoch to the next. */
  ghost predicate Steady(pc: Policy, sets: seq<Setting>, default: int)
  {
    && (forall e :: 0 <= e ==> InBounds(pc, LastSet(sets, default, e)))
    && (forall e :: 0 < e ==> Dec.Abs(LastSet(sets, default, e) - LastSet(sets, default, e - 1)) <= pc.changeRateMax)
  }

  /** Apart from genesis, a rate is set once per epoch, at its end. */
  ghost predicate SetThisEpoch(sets: seq<Setting>, now: int)
  {
    now > 0 && SetAt(sets, now)
  }

  ghost predicate TaxInv(s: State, p: Params)
  {
    TaxTable(s) && Steady(p.tax, s.taxSets, DEFAULT_TAX_RATE) && !SetThisEpoch(s.taxSets, s.epoch)
  }

  ghost predicate WeightInv(s: State, p: Params)
  {
    && WeightTable(s) && 0 in s.weights
    && Steady(p.reward, s.weightSets, DEFAULT_REWARD_WEIGHT) && !SetThisEpoch(s.weightSets, s.epoch)
  }

  /** Setting the current epoch's rate to a clamped one keeps the rates steady. */
  lemma {:induction false} SetSteady(pc: Policy, sets: seq<Setting>, default: int, now: nat, target: int)
    requires pc.rateMin <= pc.rateMax && pc.changeRateMax >= 0
    requires Steady(pc, sets, default) && !SetThisEpoch(sets, now)
    requires forall i :: 0 <= i < |sets| ==> sets[i].epoch <= now
    ensures Steady(pc, sets + [Setting(now, Clamp(pc, LastSet(sets, default, now), target))], default)
  {
    var prev := LastSet(sets, default, now);
    var rate := Clamp(pc, prev, target);
    ClampKeepsBounds(pc);
    ClampStep(pc, prev, target);
    if now > 0 {
      NotSetNoChange(sets, default, now);
    }
    var more := sets + [Setting(now, rate)];
    assert more[..|sets|] == sets;
    assert forall e :: LastSet(more, default, e) == if now <= e then rate else LastSet(sets, default, e);
  }

  lemma {:induction false} NotSetYet(rates: Rates, sets: seq<Setting>, default: int, now: int)
    requires Represents(rates, sets, default, now)
    ensures !SetThisEpoch(sets, now + 1)
  {
  }

  lemma {:induction false} ExecKeepsTaxInv(s: State, p: Params, e: Event)
    requires ValidParams(p) && TaxInv(s, p) && Controlled(e)
    ensures TaxInv(Exec(s, p, e), p)
  {
    ExecKeepsTaxTable(s, p, e);
    if e.EpochEnd? {
      var prev := TaxOf(s, s.epoch);
      LookupIsLastSet(s.taxRates, s.taxSets, DEFAULT_TAX_RATE, s.epoch, s.epoch);
      SetSteady(p.tax, s.taxSets, DEFAULT_TAX_RATE, s.epoch, TaxTarget(p.tax, prev, e.tlYear, e.tlMonth, p.increment));
      NotSetYet(s.taxRates, s.taxSets, DEFAULT_TAX_RATE, s.epoch);
      UpdateTaxKeepsTable(s, p, e.tlYear, e.tlMonth);
      var t := UpdateTax(s, p, e.tlYear, e.tlMonth);
      NotSetYet(t.taxRates, t.taxSets, DEFAULT_TAX_RATE, s.epoch);
    }
  }

  lemma {:induction false} ExecKeepsWeightInv(s: State, p: Params, e: Event)
    requires ValidParams(p) && WeightInv(s, p) && Controlled(e)
    ensures WeightInv(Exec(s, p, e), p)
  {
    ExecKeepsWeightTable(s, p, e);
    if e.EpochEnd? {
      WeightIsLastSet(s, s.epoch);
      NotSetYet(s.weights, s.weightSets, DEFAULT_REWARD_WEIGHT, s.epoch);
      var t := UpdateTax(s, p, e.tlYear, e.tlMonth);
      var prev := LastSet(s.weightSets, DEFAULT_REWARD_WEIGHT, s.epoch);
      var target := RewardTarget(p.reward, prev, e.seigniorageSum, e.totalSum, p.burdenTarget);
      if target.Some? {
        SetSteady(p.reward, s.weightSets, DEFAULT_REWARD_WEIGHT, s.epoch, target.value);
        UpdateWeightKeepsTable(t, p, e.seigniorageSum, e.totalSum);
        var u := UpdateWeight(t, p, e.seigniorageSum, e.totalSum).value;
        NotSetYet(u.weights, u.weightSets, DEFAULT_REWARD_WEIGHT, s.epoch);
      }
    }
  }

  lemma {:induction false} GenesisInv(p: Params, tax: int, weight: int)
    requires ValidParams(p) && InBounds(p.tax, tax) && InBounds(p.reward, weight)
    ensures TaxInv(GenesisState(tax, weight), p) && WeightInv(GenesisState(tax, weight), p)
  {
    var s := GenesisState(tax, weight);
    assert s.taxSets[0].epoch == 0 && s.weightSets[0].epoch == 0;
    assert forall e :: 0 <= e ==> LastSet(s.taxSets, DEFAULT_TAX_RATE, e) == tax;
    assert forall e :: 0 <= e ==> LastSet(s.weightSets, DEFAULT_REWARD_WEIGHT, e) == weight;
  }

  lemma {:induction false} RunKeepsInv(s: State, p: Params, events: seq<Event>)
    requires ValidParams(p) && TaxInv(s, p) && WeightInv(s, p)
    requires forall i :: 0 <= i < |events| ==> Controlled(events[i])
    ensures TaxInv(Run(s, p, events), p) && WeightInv(Run(s, p, events), p)
    decreases |events|
  {
    if events != [] {
      RunKeepsInv(s, p, events[..|events| - 1]);
      ExecKeepsTaxInv(Run(s, p, events[..|events| - 1]), p, events[|events| - 1]);
      ExecKeepsWeightInv(Run(s, p, events[..|events| - 1]), p, events[|events| - 1]);
    }
  }

  /** Over every run from genesis values within bounds, whatever the indicators say, both rates are set, stay within
      their bounds in every epoch and move at most `changeRateMax` from one epoch to the next. */
  lemma {:induction false} PolicySafety(p: Params, tax: int, weight: int, events: seq<Event>, epoch: nat)
    requires ValidParams(p) && InBounds(p.tax, tax) && InBounds(p.reward, weight)
    requires forall i :: 0 <= i < |events| ==> Controlled(events[i])
    requires epoch <= Run(GenesisState(tax, weight), p, events).epoch
    ensures var s := Run(GenesisState(tax, weight), p, events);
            && InBounds(p.tax, TaxOf(s, epoch)) && WeightOf(s, epoch).Some?
               && InBounds(p.reward, WeightOf(s, epoch).value)
            && (epoch > 0 ==>
                  && Dec.Abs(TaxOf(s, epoch) - TaxOf(s, epoch - 1)) <= p.tax.changeRateMax
                  && WeightOf(s, epoch - 1).Some?
                  && Dec.Abs(WeightOf(s, epoch).value - WeightOf(s, epoch - 1).value) <= p.reward.changeRateMax)
  {
    GenesisInv(p, tax, weight);
    RunKeepsInv(GenesisState(tax, weight), p, events);
    SteadyTax(Run(GenesisState(tax, weight), p, events), p, epoch);
    SteadyWeight(Run(GenesisState(tax, weight), p, events), p, epoch);
  }

  lemma {:induction false} SteadyTax(s: State, p: Params, epoch: nat)
    requires TaxInv(s, p)
    ensures InBounds(p.tax, TaxOf(s, epoch))
    ensures epoch > 0 ==> Dec.Abs(TaxOf(s, epoch) - TaxOf(s, epoch - 1)) <= p.tax.changeRateMax
  {
    LookupIsLastSet(s.taxRates, s.taxSets, DEFAULT_TAX_RATE, s.epoch, epoch);
    LookupIsLastSet(s.taxRates, s.taxSets, DEFAULT_TAX_RATE, s.epoch, epoch - 1);
  }

  lemma {:induction false} SteadyWeight(s: State, p: Params, epoch: nat)
    requires WeightInv(s, p) && epoch <= s.epoch
    ensures WeightOf(s, epoch).Some? && InBounds(p.reward, WeightOf(s, epoch).value)
    ensures epoch > 0 ==>
              && WeightOf(s, epoch - 1).Some?
              && Dec.Abs(WeightOf(s, epoch).value - WeightOf(s, epoch - 1).value) <= p.reward.changeRateMax
  {
    WeightIsLastSet(s, epoch);
    if epoch > 0 {
      WeightIsLastSet(s, epoch - 1);
    }
  }
}
