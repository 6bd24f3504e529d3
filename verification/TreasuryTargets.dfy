/** Where the policies of x/treasury head, in terms of the revenues compared, and what their indicators measure. */
module TreasuryTargets {
  import opened Wrappers
  import opened Treasury
  import Dec
  import Quotes

  // ---------------------------------------------------------------------------
  // The tax rate

  /** Up to rounding the target is the rate times the long average, raised by the increment, over the short one. */
  lemma {:induction false} TaxTargetIsRatio(pc: Policy, prev: nat, tlYear: nat, tlMonth: nat, increment: nat)
    requires tlMonth > 0
    ensures 2 * Dec.Abs(TaxTarget(pc, prev, tlYear, tlMonth, increment) * tlMonth - prev * Dec.Mul(tlYear, increment))
         <= 2 * tlMonth + Dec.ONE
  {
    var raised := RaisedAverage(tlYear, increment);
    var x: nat := Dec.Product(prev, raised);
    Dec.ChopNearest(x);
    var y: nat := Dec.Chop(x);
    Quotes.QuoClose(y, tlMonth);
  }

  /** The long average raised by the increment. */
  function RaisedAverage(tlYear: nat, increment: nat): (raised: nat)
    ensures raised == Dec.Mul(tlYear, increment)
  {
    Dec.Chop(Dec.Product(tlYear, increment))
  }

  /** The more revenue there used to be, the higher the target. */
  lemma {:induction false} GrowsWithLongAverage(pc: Policy, prev: nat, tlYear: int, tlYear': int, tlMonth: nat,
          increment: nat)
    requires tlMonth > 0 && tlYear <= tlYear'
    ensures TaxTarget(pc, prev, tlYear, tlMonth, increment) <= TaxTarget(pc, prev, tlYear', tlMonth, increment)
  {
    Dec.TimesMonotone(tlYear, tlYear', increment);
    Dec.ChopMonotone(tlYear * increment, tlYear' * increment);
    TargetGrows(prev, Dec.Mul(tlYear, increment), Dec.Mul(tlYear', increment), tlMonth);
  }

  lemma {:induction false} TargetGrows(prev: nat, x: int, y: int, tlMonth: nat)
    requires tlMonth > 0 && x <= y
    ensures Dec.Quo(Dec.Mul(prev, x), tlMonth) <= Dec.Quo(Dec.Mul(prev, y), tlMonth)
  {
    Dec.TimesMonotone(x, y, prev);
    Dec.ChopMonotone(prev * x, prev * y);
    QuoMonotone(Dec.Mul(prev, x), Dec.Mul(prev, y), tlMonth);
  }

  lemma {:induction false} QuoMonotone(a: int, c: int, b: nat)
    requires b > 0 && a <= c
    ensures Dec.Quo(a, b) <= Dec.Quo(c, b)
  {
    Dec.TruncDivMonotone(a * Dec.ONE * Dec.ONE, c * Dec.ONE * Dec.ONE, b);
    Dec.ChopMonotone(Dec.TruncDiv(a * Dec.ONE * Dec.ONE, b), Dec.TruncDiv(c * Dec.ONE * Dec.ONE, b));
  }

  /** The more revenue there was of late, the lower the target. */
  lemma {:induction false} FallsWithShortAverage(pc: Policy, prev: nat, tlYear: nat, tlMonth: nat, tlMonth': nat,
          increment: nat)
    requires 0 < tlMonth <= tlMonth'
    ensures TaxTarget(pc, prev, tlYear, tlMonth', increment) <= TaxTarget(pc, prev, tlYear, tlMonth, increment)
  {
    var x: nat := Dec.Product(prev, RaisedAverage(tlYear, increment));
    var y: nat := Dec.Chop(x);
    DivAntitone(y * Dec.ONE * Dec.ONE, tlMonth, tlMonth');
    Dec.ChopMonotone(y * Dec.ONE * Dec.ONE / tlMonth', y * Dec.ONE * Dec.ONE / tlMonth);
  }

  lemma {:induction false} DivAntitone(a: nat, b: nat, c: nat)
    requires 0 < b <= c
    ensures a / c <= a / b
  {
    var p, q := a / c, a / b;
    Dec.DivBounds(a, b);
    Dec.DivBounds(a, c);
    Dec.DivNonNegative(a, c);
    Dec.TimesMonotone(b, c, p);
    assert q < p ==> (q + 1) * b <= p * b by {
      if q < p { Dec.TimesMonotone(q + 1, p, b); }
    }
    assert b * p <= c * p;
  }

  // ---------------------------------------------------------------------------
  // Which way the tax rate moves

  /** What multiplying the rate by the short average loses to rounding. */
  function Loss(prev: int, tlMonth: int): int
  {
    prev * tlMonth - Dec.ONE * Dec.Mul(prev, tlMonth)
  }

  /** The loss is too small, against the short average it is divided by, to turn up in the last digit of the rate. */
  predicate LossVanishes(prev: int, tlMonth: int)
  {
    var loss := Loss(prev, tlMonth);
    if prev % 2 == 0 then 2 * loss <= tlMonth && 2 * Dec.ONE * (0 - loss) < (Dec.ONE + 2) * tlMonth
    else 2 * Dec.ONE * loss <= (Dec.ONE - 2) * tlMonth && 2 * (0 - loss) < tlMonth
  }

  /** Whichever of two revenues is higher decides the way: the raised long average against the short one. */
  ghost predicate FollowsRevenue(pc: Policy, prev: int, tlMonth: int)
  {
    forall tlYear, increment :: Heads(pc, prev, tlYear, tlMonth, increment)
  }

  ghost predicate Heads(pc: Policy, prev: int, tlYear: int, tlMonth: int, increment: int)
  {
    var target := TaxTarget(pc, prev, tlYear, tlMonth, increment);
    && (Dec.Mul(tlYear, increment) >= tlMonth ==> target >= prev)
    && (Dec.Mul(tlYear, increment) <= tlMonth ==> target <= prev)
  }

  /** A quotient is at least an integer exactly when the dividend is at least that many divisors. */
  lemma {:induction false} FloorAtLeast(k: int, m: nat, x: int, c: int)
    requires m > 0 && k * m <= x < k * m + m
    ensures k >= c <==> x >= c * m
  {
    if k >= c {
      Dec.TimesMonotone(c, k, m);
    } else {
      Dec.TimesMonotone(k + 1, c, m);
      Dec.OneMore(k, m);
    }
  }

  const HALF: int := 500_000_000_000_000_000

  /** The rate times the short average, divided by it again, and rounded: `k` is by how much it is off, to 36
      digits. */
  lemma {:induction false} BackToRate(prev: nat, tlMonth: nat, y: nat) returns (k: int)
    requires tlMonth > 0
    ensures var loss := prev * tlMonth - Dec.ONE * y;
            k * tlMonth <= (0 - loss) * Dec.ONE < k * tlMonth + tlMonth
    ensures Dec.Quo(y, tlMonth) == prev <==> -HALF <= k <= HALF && (Dec.Abs(k) == HALF ==> prev % 2 == 0)
  {
    var scaled: nat := y * Dec.ONE * Dec.ONE;
    var q: nat := scaled / tlMonth;
    Dec.DivBounds(scaled, tlMonth);
    k := q - prev * Dec.ONE;
    Shifted(prev, tlMonth, y, q, k);
    Dec.ChopNearest(q);
    if Dec.NearestEven(q, prev) {
      Dec.NearestEvenUnique(q, prev, Dec.Chop(q));
    }
  }

  lemma {:induction false} Shifted(prev: int, m: int, y: int, q: int, k: int)
    requires k == q - prev * Dec.ONE
    ensures k * m == q * m - prev * m * Dec.ONE
    ensures (0 - (prev * m - Dec.ONE * y)) * Dec.ONE == y * Dec.ONE * Dec.ONE - prev * m * Dec.ONE
  {
    assert (q - prev * Dec.ONE) * m == q * m - prev * Dec.ONE * m;
    assert prev * Dec.ONE * m == prev * m * Dec.ONE;
  }

  lemma {:induction false} BackToRateExactly(prev: nat, tlMonth: nat, y: nat)
    requires tlMonth > 0 && y == Dec.Mul(prev, tlMonth)
    ensures Dec.Quo(y, tlMonth) == prev <==> LossVanishes(prev, tlMonth)
  {
    var k := BackToRate(prev, tlMonth, y);
    WithinHalf(k, tlMonth, Loss(prev, tlMonth));
  }

  lemma {:induction false} WithinHalf(k: int, m: nat, loss: int)
    requires m > 0 && k * m <= (0 - loss) * Dec.ONE < k * m + m
    ensures -HALF <= k <= HALF <==> 2 * loss <= m && 2 * Dec.ONE * (0 - loss) < (Dec.ONE + 2) * m
    ensures -HALF < k < HALF <==> 2 * Dec.ONE * loss <= (Dec.ONE - 2) * m && 2 * (0 - loss) < m
  {
    var x := (0 - loss) * Dec.ONE;
    FloorAtLeast(k, m, x, -HALF);
    FloorAtLeast(k, m, x, -HALF + 1);
    FloorAtLeast(k, m, x, HALF);
    FloorAtLeast(k, m, x, HALF + 1);
  }

  /** The tax rate heads up when the raised long average is at least the short one, and down when it is at most that,
      for all averages and increments, exactly when the loss vanishes. */
  lemma {:induction false} FollowsRevenueExactly(pc: Policy, prev: nat, tlMonth: nat)
    requires tlMonth > 0
    ensures FollowsRevenue(pc, prev, tlMonth) <==> LossVanishes(prev, tlMonth)
  {
    var x: nat := Dec.Product(prev, tlMonth);
    var y: nat := Dec.Chop(x);
    BackToRateExactly(prev, tlMonth, y);
    if LossVanishes(prev, tlMonth) {
      forall tlYear, increment
        ensures Heads(pc, prev, tlYear, tlMonth, increment)
      {
        var raised := Dec.Mul(tlYear, increment);
        if raised >= tlMonth { TargetGrows(prev, tlMonth, raised, tlMonth); }
        if raised <= tlMonth { TargetGrows(prev, raised, tlMonth, tlMonth); }
      }
    }
    if FollowsRevenue(pc, prev, tlMonth) {
      Dec.ChopExact(tlMonth);
      assert Dec.Mul(tlMonth, Dec.ONE) == tlMonth;
      assert Heads(pc, prev, tlMonth, tlMonth, Dec.ONE);
    }
  }

  /** It always does from an average of two micro-SDR for a bonded micro-Luna on. */
  lemma {:induction false} LossVanishesFromTwo(prev: nat, tlMonth: nat)
    requires tlMonth >= 2 * Dec.ONE
    ensures LossVanishes(prev, tlMonth)
  {
    Dec.ChopNearest(prev * tlMonth);
  }

  /** It always vanishes where the product needs no rounding. */
  lemma {:induction false} LossVanishesIfExact(prev: nat, tlMonth: nat, product: int)
    requires tlMonth > 0 && prev * tlMonth == product * Dec.ONE
    ensures LossVanishes(prev, tlMonth)
  {
    Dec.ChopExact(product);
  }

  const DEFAULT_TAX_POLICY: Policy := Policy(500_000_000_000_000, 10_000_000_000_000_000, 250_000_000_000_000)

  const DEFAULT_INCREMENT: int := 1_070_000_000_000_000_000

  /** Under the default policy, one micro-SDR of taxes a week on 10^15 bonded micro-Luna, as much as ever before, takes
      a tax rate of 0.14 % down although it should go up. */
  lemma {:induction false} DustLowersTheTax()
    ensures var prev, tlYear, tlMonth := 1_400_000_000_000_000, 1000, 1000;
            var target := TaxTarget(DEFAULT_TAX_POLICY, prev, tlYear, tlMonth, DEFAULT_INCREMENT);
            && InBounds(DEFAULT_TAX_POLICY, prev) && Dec.Mul(tlYear, DEFAULT_INCREMENT) > tlMonth
            && target == 1_000_000_000_000_000 && Clamp(DEFAULT_TAX_POLICY, prev, target) == 1_150_000_000_000_000
            && !LossVanishes(prev, tlMonth)
  {
    Dec.ChopUnique(1000 * DEFAULT_INCREMENT, 1070);
    Dec.ChopUnique(1_400_000_000_000_000 * 1070, 1);
    Dec.ChopUnique(1_400_000_000_000_000 * 1000, 1);
    Dec.ChopUnique(Dec.ONE * Dec.ONE / 1000, Dec.ONE / 1000);
  }

  /** Whatever is lost, a difference worth a unit of the last digit, and half of one by the short average, decides. */
  lemma {:induction false} DifferenceDecides(pc: Policy, prev: nat, tlYear: nat, tlMonth: nat, increment: nat)
    requires tlMonth > 0
    ensures var target, raised := TaxTarget(pc, prev, tlYear, tlMonth, increment), Dec.Mul(tlYear, increment);
            && (2 * prev * (raised - tlMonth) >= 2 * tlMonth + Dec.ONE ==> target >= prev)
            && (2 * prev * (tlMonth - raised) >= 2 * tlMonth + Dec.ONE ==> target <= prev)
  {
    TaxTargetIsRatio(pc, prev, tlYear, tlMonth, increment);
    SignOf(prev, RaisedAverage(tlYear, increment), tlMonth, TaxTarget(pc, prev, tlYear, tlMonth, increment));
  }

  lemma {:induction false} SignOf(prev: nat, raised: nat, tlMonth: nat, target: int)
    requires tlMonth > 0 && 2 * Dec.Abs(target * tlMonth - prev * raised) <= 2 * tlMonth + Dec.ONE
    ensures 2 * prev * (raised - tlMonth) >= 2 * tlMonth + Dec.ONE ==> target >= prev
    ensures 2 * prev * (tlMonth - raised) >= 2 * tlMonth + Dec.ONE ==> target <= prev
  {
    assert 2 * prev * (raised - tlMonth) == 2 * (prev * raised) - 2 * (prev * tlMonth);
    assert 2 * prev * (tlMonth - raised) == 2 * (prev * tlMonth) - 2 * (prev * raised);
    if target < prev {
      Dec.TimesMonotone(target + 1, prev, tlMonth);
      Dec.OneMore(target, tlMonth);
    }
    if target > prev {
      Dec.TimesMonotone(prev + 1, target, tlMonth);
      Dec.OneMore(prev, tlMonth);
    }
  }

  // ---------------------------------------------------------------------------
  // The end of an epoch

  /** A clamped rate is the nearest to the target that is within bounds and a step away: with the bounds and the step
      that it keeps, this is all there is to say about it. */
  lemma {:induction false} ClampIsNearest(pc: Policy, prev: int, target: int, rate: int)
    requires InBounds(pc, prev) && pc.changeRateMax >= 0
    requires InBounds(pc, rate) && Dec.Abs(rate - prev) <= pc.changeRateMax
    ensures Dec.Abs(Clamp(pc, prev, target) - target) <= Dec.Abs(rate - target)
  {
  }

  /** Clamping keeps the direction of a step. */
  lemma {:induction false} ClampKeepsDirection(pc: Policy, prev: int, target: int)
    requires InBounds(pc, prev) && pc.changeRateMax >= 0
    ensures target >= prev ==> Clamp(pc, prev, target) >= prev
    ensures target <= prev ==> Clamp(pc, prev, target) <= prev
    ensures target == pc.rateMax ==> Clamp(pc, prev, target) == Dec.Min(prev + pc.changeRateMax, pc.rateMax)
  {
  }

  /** The rate that the end of an epoch leaves for the next one. */
  lemma {:induction false} RateOfNextEpoch(s: State, p: Params, e: Event)
    requires TaxTable(s) && e.EpochEnd? && !e.probation && Exec(s, p, e) != s
    ensures var prev := TaxOf(s, s.epoch);
            TaxOf(Exec(s, p, e), s.epoch + 1)
            == Clamp(p.tax, prev, TaxTarget(p.tax, prev, e.tlYear, e.tlMonth, p.increment))
  {
    var t := UpdateTax(s, p, e.tlYear, e.tlMonth);
    UpdateTaxKeepsTable(s, p, e.tlYear, e.tlMonth);
    var after := Exec(s, p, e);
    assert after.taxRates == t.taxRates && s.epoch in t.taxRates && s.epoch + 1 !in t.taxRates;
    assert Found(t.taxRates, s.epoch + 1) == Found(t.taxRates, s.epoch);
  }

  /** At the end of an epoch without revenue the tax rate takes a step towards its maximum. With revenue it does not
      fall when the raised long average is at least the short one, and does not rise when it is at most that: wherever
      the loss vanishes, and wherever the difference of the two is worth the last digit. */
  lemma {:induction false} TaxFollowsRevenue(s: State, p: Params, e: Event)
    requires TaxTable(s) && e.EpochEnd? && !e.probation && Exec(s, p, e) != s
    requires InBounds(p.tax, TaxOf(s, s.epoch)) && TaxOf(s, s.epoch) >= 0 && p.tax.changeRateMax >= 0
    requires e.tlYear >= 0 && e.tlMonth >= 0 && p.increment >= 0
    ensures var prev, next := TaxOf(s, s.epoch), TaxOf(Exec(s, p, e), s.epoch + 1);
            var raised, month := Dec.Mul(e.tlYear, p.increment), e.tlMonth;
            if month == 0 then next == Dec.Min(prev + p.tax.changeRateMax, p.tax.rateMax)
            else
              && (raised >= month && LossVanishes(prev, month) ==> next >= prev)
              && (raised <= month && LossVanishes(prev, month) ==> next <= prev)
              && (2 * prev * (raised - month) >= 2 * month + Dec.ONE ==> next >= prev)
              && (2 * prev * (month - raised) >= 2 * month + Dec.ONE ==> next <= prev)
  {
    var prev := TaxOf(s, s.epoch);
    var target := TaxTarget(p.tax, prev, e.tlYear, e.tlMonth, p.increment);
    RateOfNextEpoch(s, p, e);
    ClampKeepsDirection(p.tax, prev, target);
    if e.tlMonth > 0 {
      FollowsRevenueExactly(p.tax, prev, e.tlMonth);
      assert LossVanishes(prev, e.tlMonth) ==> Heads(p.tax, prev, e.tlYear, e.tlMonth, p.increment);
      DifferenceDecides(p.tax, prev, e.tlYear, e.tlMonth, p.increment);
    }
  }

  // ---------------------------------------------------------------------------
  // The reward weight

  /** A quotient is at least one exactly when the dividend is at least the divisor, one at most one likewise. */
  lemma {:induction false} QuoAgainstOne(a: int, b: nat)
    requires b > 0
    ensures a >= b ==> Dec.Quo(a, b) >= Dec.ONE
    ensures a <= b ==> Dec.Quo(a, b) <= Dec.ONE
  {
    Dec.DivUnique(b * Dec.ONE * Dec.ONE, b, Dec.ONE * Dec.ONE);
    Dec.ChopExact(Dec.ONE);
    if a >= b { QuoMonotone(b, a, b); }
    if a <= b { QuoMonotone(a, b, b); }
  }

  lemma {:induction false} MulAgainstOne(prev: nat, factor: int)
    ensures factor >= Dec.ONE ==> Dec.Mul(prev, factor) >= prev
    ensures factor <= Dec.ONE ==> Dec.Mul(prev, factor) <= prev
  {
    Dec.ChopExact(prev);
    if factor >= Dec.ONE {
      Dec.TimesMonotone(Dec.ONE, factor, prev);
      Dec.ChopMonotone(prev * Dec.ONE, prev * factor);
    }
    if factor <= Dec.ONE {
      Dec.TimesMonotone(factor, Dec.ONE, prev);
      Dec.ChopMonotone(prev * factor, prev * Dec.ONE);
    }
  }

  /** Seigniorage as a part of all rewards. */
  function Burden(seigniorageSum: nat, totalSum: nat): (burden: nat)
    requires totalSum > 0
    ensures burden == Dec.Quo(seigniorageSum, totalSum)
  {
    var n: nat := Dec.Product(seigniorageSum, Dec.ONE * Dec.ONE) / totalSum;
    Dec.Chop(n)
  }

  /** The reward weight heads up when seigniorage makes up no more than the targeted part of the rewards, down when it
      makes up no less, and to its maximum when there is none. */
  lemma {:induction false} WeightFollowsBurden(pc: Policy, prev: nat, seigniorageSum: nat, totalSum: nat,
          burdenTarget: int)
    ensures var target := RewardTarget(pc, prev, seigniorageSum, totalSum, burdenTarget);
            if seigniorageSum == 0 || totalSum == 0 then target == Some(pc.rateMax)
            else
              var burden := Dec.Quo(seigniorageSum, totalSum);
              && Dec.Abs(burden * totalSum - seigniorageSum * Dec.ONE) <= totalSum
              && (target.Some? && burden <= burdenTarget ==> target.value >= prev)
              && (target.Some? && burden >= burdenTarget ==> target.value <= prev)
  {
    if seigniorageSum != 0 && totalSum != 0 {
      Quotes.QuoClose(seigniorageSum, totalSum);
      var burden := Burden(seigniorageSum, totalSum);
      if burden != 0 {
        QuoAgainstOne(burdenTarget, burden);
        MulAgainstOne(prev, Dec.Quo(burdenTarget, burden));
      }
    }
  }

  /** The weight that the end of an epoch stores moves the same way. */
  lemma {:induction false} StoredWeightFollowsBurden(s: State, p: Params, seigniorageSum: nat, totalSum: nat)
    requires WeightOf(s, s.epoch).Some? && InBounds(p.reward, WeightOf(s, s.epoch).value)
    requires WeightOf(s, s.epoch).value >= 0 && p.reward.changeRateMax >= 0
    requires UpdateWeight(s, p, seigniorageSum, totalSum).Some?
    ensures var after := UpdateWeight(s, p, seigniorageSum, totalSum).value;
            var prev, next := WeightOf(s, s.epoch).value, WeightOf(after, s.epoch);
            && next.Some?
            && (if seigniorageSum == 0 || totalSum == 0
                then next.value == Dec.Min(prev + p.reward.changeRateMax, p.reward.rateMax)
                else
                  && (Dec.Quo(seigniorageSum, totalSum) <= p.burdenTarget ==> next.value >= prev)
                  && (Dec.Quo(seigniorageSum, totalSum) >= p.burdenTarget ==> next.value <= prev))
  {
    var prev := WeightOf(s, s.epoch).value;
    WeightFollowsBurden(p.reward, prev, seigniorageSum, totalSum, p.burdenTarget);
    var target := RewardTarget(p.reward, prev, seigniorageSum, totalSum, p.burdenTarget);
    ClampKeepsDirection(p.reward, prev, target.value);
  }
}
