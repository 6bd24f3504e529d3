/** What swapping at oracle rates pays, exactly, and when swapping there and back gains (x/market/keeper.go). */
module RoundTrip {
  import opened Market
  import Dec

  // ---------------------------------------------------------------------------
  // What a swap pays

  /** Rounding reaches an even number from half a unit below it on. */
  lemma {:induction false} ChopReaches(q: nat, m: nat)
    requires m % 2 == 0
    ensures Dec.Chop(q) >= m <==> 2 * q >= 2 * m * Dec.ONE - Dec.ONE
  {
    Dec.ChopNearest(q);
    var c := Dec.Chop(q);
    if c >= m {
      assert c * Dec.ONE >= m * Dec.ONE;
    } else {
      assert c * Dec.ONE <= (m - 1) * Dec.ONE;
    }
  }

  lemma {:induction false} QuotientReaches(x: nat, b: nat, t: int)
    requires b > 0
    ensures x / b >= t <==> x >= t * b
  {
    Dec.DivBounds(x, b);
    var q := x / b;
    assert q >= t ==> q * b >= t * b;
    assert q < t ==> (q + 1) * b <= t * b;
  }

  /** The exact quotient with 36 digits, truncated. */
  function QuotientDigits(x: nat, r: nat): (q: nat)
    requires r > 0
    ensures q == Dec.TruncDiv(x * Dec.ONE * Dec.ONE, r)
    ensures forall t: int :: q >= t <==> x * Dec.ONE * Dec.ONE >= t * r
  {
    forall t: int ensures x * Dec.ONE * Dec.ONE / r >= t <==> x * Dec.ONE * Dec.ONE >= t * r {
      QuotientReaches(x * Dec.ONE * Dec.ONE, r, t);
    }
    Dec.DivNonNegative(x * Dec.ONE * Dec.ONE, r);
    x * Dec.ONE * Dec.ONE / r
  }

  /** A swap pays at least `k` exactly when what is missing for `k` is at most half of 10^-18 of the offered rate. */
  lemma {:induction false} SwapReaches(n: nat, offerRate: nat, askRate: nat, k: nat)
    requires offerRate > 0
    ensures SwapAmount(n, offerRate, askRate) >= k <==> 2 * Dec.ONE * (k * offerRate - n * askRate) <= offerRate
  {
    var x: nat := Dec.Product(n, askRate);
    Dec.MulFromInt(n, askRate);
    var q: nat := QuotientDigits(x, offerRate);
    DigitsReach(q, k);
    Unscale(x, offerRate, k);
  }

  lemma {:induction false} TruncateReaches(c: nat, k: nat)
    ensures Dec.TruncateInt(c) >= k <==> c >= k * Dec.ONE
  {
  }

  /** The rounded and truncated quotient reaches `k` from half of 10^-18 below it on. */
  lemma {:induction false} DigitsReach(q: nat, k: nat)
    ensures Dec.TruncateInt(Dec.Chop(q)) >= k <==> q >= k * (Dec.ONE * Dec.ONE) - Dec.ONE / 2
  {
    var m := k * Dec.ONE;
    assert m % 2 == 0;
    ChopReaches(q, m);
    var c: nat := Dec.Chop(q);
    TruncateReaches(c, k);
  }

  lemma {:induction false} Unscale(x: nat, r: nat, k: nat)
    ensures x * Dec.ONE * Dec.ONE >= (k * (Dec.ONE * Dec.ONE) - Dec.ONE / 2) * r <==> 2 * Dec.ONE * (k * r - x) <= r
  {
    Distribute(k, Dec.ONE * Dec.ONE, Dec.ONE / 2, r);
  }

  lemma {:induction false} Distribute(k: int, c: int, h: int, r: int)
    ensures (k * c - h) * r == (k * r) * c - h * r
  {
  }

  /** A swap pays at most half of 10^-18 more than the exact quotient. */
  lemma {:induction false} SwapAmountBounds(n: nat, offerRate: nat, askRate: nat)
    requires offerRate > 0
    ensures SwapAmount(n, offerRate, askRate) >= 0
    ensures 2 * Dec.ONE * (SwapAmount(n, offerRate, askRate) * offerRate - n * askRate) <= offerRate
  {
    SwapReaches(n, offerRate, askRate, 0);
    SwapReaches(n, offerRate, askRate, SwapAmount(n, offerRate, askRate));
  }

  /** Offering the offered rate pays the asked rate. */
  lemma {:induction false} ExactSwap(offerRate: nat, askRate: nat)
    requires offerRate > 0
    ensures SwapAmount(offerRate, offerRate, askRate) == askRate
  {
    SwapReaches(offerRate, offerRate, askRate, askRate);
    SwapReaches(offerRate, offerRate, askRate, askRate + 1);
    assert (askRate + 1) * offerRate - offerRate * askRate == offerRate;
  }

  /** At equal rates a swap pays what was offered. */
  lemma {:induction false} UnitSwap(n: nat)
    ensures SwapAmount(n, Dec.ONE, Dec.ONE) == n
  {
    SwapReaches(n, Dec.ONE, Dec.ONE, n);
    SwapReaches(n, Dec.ONE, Dec.ONE, n + 1);
  }

  // ---------------------------------------------------------------------------
  // There and back

  function ThereAndBack(n: nat, offerRate: nat, askRate: nat): int
    requires offerRate > 0 && askRate > 0
  {
    SwapAmount(SwapAmount(n, offerRate, askRate), askRate, offerRate)
  }

  ghost predicate Gains(offerRate: nat, askRate: nat)
    requires offerRate > 0 && askRate > 0
  {
    exists n: nat :: ThereAndBack(n, offerRate, askRate) > n
  }

  /** Overpaying by `r` goes unnoticed on the way there, and is worth a unit on the way back. */
  predicate Slips(offerRate: nat, askRate: nat, r: int)
  {
    (2 * Dec.ONE - 1) * askRate <= 2 * Dec.ONE * r <= offerRate
  }

  lemma {:induction false} GainSlips(n: nat, offerRate: nat, askRate: nat)
    requires offerRate > 0 && askRate > 0 && ThereAndBack(n, offerRate, askRate) > n
    ensures var k := SwapAmount(n, offerRate, askRate);
            k >= 0 && Slips(offerRate, askRate, k * offerRate - n * askRate)
  {
    SwapAmountBounds(n, offerRate, askRate);
    var k := SwapAmount(n, offerRate, askRate);
    SwapReaches(k, askRate, offerRate, n + 1);
    assert (n + 1) * askRate == n * askRate + askRate;
  }

  lemma {:induction false} SlipGains(n: nat, k: nat, offerRate: nat, askRate: nat)
    requires offerRate > 0 && askRate > 0 && Slips(offerRate, askRate, k * offerRate - n * askRate)
    ensures ThereAndBack(n, offerRate, askRate) > n
  {
    SwapReaches(n, offerRate, askRate, k);
    var paid: nat := SwapAmount(n, offerRate, askRate);
    SwapReaches(paid, askRate, offerRate, n + 1);
    Slipped(n, k, paid, offerRate, askRate);
  }

  lemma {:induction false} Slipped(n: nat, k: nat, paid: nat, offerRate: nat, askRate: nat)
    requires paid >= k && (2 * Dec.ONE - 1) * askRate <= 2 * Dec.ONE * (k * offerRate - n * askRate)
    ensures 2 * Dec.ONE * ((n + 1) * askRate - paid * offerRate) <= askRate
  {
    Dec.TimesMonotone(k, paid, offerRate);
    assert (n + 1) * askRate == n * askRate + askRate;
  }

  // ---------------------------------------------------------------------------
  // Which overpayments there are

  function Gcd(a: nat, b: nat): (g: nat)
    requires a > 0 && b > 0
    ensures g > 0
    decreases a + b
  {
    if a == b then a else if a > b then Gcd(a - b, b) else Gcd(a, b - a)
  }

  lemma {:induction false} GcdDivides(a: nat, b: nat) returns (x: nat, y: nat)
    requires a > 0 && b > 0
    ensures a == x * Gcd(a, b) && b == y * Gcd(a, b)
    decreases a + b
  {
    if a == b {
      x, y := 1, 1;
    } else if a > b {
      x, y := GcdDivides(a - b, b);
      assert (x + y) * Gcd(a, b) == x * Gcd(a, b) + y * Gcd(a, b);
      x := x + y;
    } else {
      x, y := GcdDivides(a, b - a);
      assert (x + y) * Gcd(a, b) == x * Gcd(a, b) + y * Gcd(a, b);
      y := x + y;
    }
  }

  lemma {:induction false} Bezout(a: nat, b: nat) returns (u: nat, v: nat)
    requires a > 0 && b > 0
    ensures u * a - v * b == Gcd(a, b)
    decreases a + b
  {
    if a == b {
      u, v := 1, 0;
    } else if a > b {
      u, v := Bezout(a - b, b);
      assert u * (a - b) == u * a - u * b && (u + v) * b == u * b + v * b;
      v := u + v;
    } else {
      u, v := Bezout(a, b - a);
      assert v * (b - a) == v * b - v * a && (u + v) * a == u * a + v * a;
      u := u + v;
    }
  }

  function CeilDiv(x: nat, b: nat): (c: nat)
    requires b > 0
    ensures c * b >= x
  {
    Dec.DivBounds(x + b - 1, b);
    (x + b - 1) / b
  }

  lemma {:induction false} CeilIsLeast(x: nat, b: nat, m: int)
    requires b > 0 && m * b >= x
    ensures CeilDiv(x, b) <= m
  {
    Dec.DivBounds(x + b - 1, b);
    var c := CeilDiv(x, b);
    assert m < c ==> (m + 1) * b <= c * b;
  }

  /** Twice 10^18 times the least multiple of the common divisor that could slip on the way back. */
  function LeastSlip(offerRate: nat, askRate: nat): nat
    requires offerRate > 0 && askRate > 0
  {
    var unit := 2 * Dec.ONE * Gcd(offerRate, askRate);
    CeilDiv((2 * Dec.ONE - 1) * askRate, unit) * unit
  }

  lemma {:induction false} Overpayment(n: nat, k: nat, offerRate: nat, askRate: nat) returns (m: int)
    requires offerRate > 0 && askRate > 0
    ensures k * offerRate - n * askRate == m * Gcd(offerRate, askRate)
  {
    var x, y := GcdDivides(offerRate, askRate);
    m := k * x - n * y;
    Factor(k, x, n, y, Gcd(offerRate, askRate));
  }

  lemma {:induction false} Factor(k: int, x: int, n: int, y: int, g: int)
    ensures k * (x * g) - n * (y * g) == (k * x - n * y) * g
  {
  }

  lemma {:induction false} SlipIsMultiple(n: nat, k: nat, offerRate: nat, askRate: nat)
    requires offerRate > 0 && askRate > 0 && Slips(offerRate, askRate, k * offerRate - n * askRate)
    ensures LeastSlip(offerRate, askRate) <= offerRate
  {
    var m := Overpayment(n, k, offerRate, askRate);
    LeastIsLeast(m, Gcd(offerRate, askRate), (2 * Dec.ONE - 1) * askRate);
  }

  lemma {:induction false} LeastIsLeast(m: int, g: nat, x: nat)
    requires g > 0 && 2 * Dec.ONE * (m * g) >= x
    ensures CeilDiv(x, 2 * Dec.ONE * g) * (2 * Dec.ONE * g) <= 2 * Dec.ONE * (m * g)
  {
    var unit := 2 * Dec.ONE * g;
    assert 2 * Dec.ONE * (m * g) == m * unit;
    CeilIsLeast(x, unit, m);
    Dec.TimesMonotone(CeilDiv(x, unit), m, unit);
  }

  lemma {:induction false} MultipleSlips(offerRate: nat, askRate: nat) returns (n: nat, k: nat)
    requires offerRate > 0 && askRate > 0 && LeastSlip(offerRate, askRate) <= offerRate
    ensures Slips(offerRate, askRate, k * offerRate - n * askRate)
  {
    var g := Gcd(offerRate, askRate);
    var unit := 2 * Dec.ONE * g;
    var m := CeilDiv((2 * Dec.ONE - 1) * askRate, unit);
    var u, v := Bezout(offerRate, askRate);
    n, k := m * v, m * u;
    assert k * offerRate == m * (u * offerRate) && n * askRate == m * (v * askRate);
    assert k * offerRate - n * askRate == m * g;
    assert 2 * Dec.ONE * (m * g) == m * unit;
  }

  /** Swapping Terra for Terra and back at fixed rates gains for some amount if and only if the least multiple of the
      rates' common divisor that slips on the way back also slips on the way there. */
  lemma {:induction false} RoundTripGainsExactly(offerRate: nat, askRate: nat)
    requires offerRate > 0 && askRate > 0
    ensures Gains(offerRate, askRate) <==> LeastSlip(offerRate, askRate) <= offerRate
  {
    if Gains(offerRate, askRate) {
      var n: nat :| ThereAndBack(n, offerRate, askRate) > n;
      GainSlips(n, offerRate, askRate);
      SlipIsMultiple(n, SwapAmount(n, offerRate, askRate), offerRate, askRate);
    }
    if LeastSlip(offerRate, askRate) <= offerRate {
      var n, k := MultipleSlips(offerRate, askRate);
      SlipGains(n, k, offerRate, askRate);
    }
  }

  /** So it never gains as long as the offered rate is less than 2 * 10^18 - 1 times the asked one. */
  lemma {:induction false} RoundTripNeverGains(n: nat, offerRate: nat, askRate: nat)
    requires 0 < askRate && 0 < offerRate < (2 * Dec.ONE - 1) * askRate
    ensures SwapAmount(n, offerRate, askRate) >= 0
    ensures ThereAndBack(n, offerRate, askRate) <= n
  {
    SwapAmountBounds(n, offerRate, askRate);
    if ThereAndBack(n, offerRate, askRate) > n {
      GainSlips(n, offerRate, askRate);
    }
  }

  lemma {:induction false} OneLess(r: nat, a: nat)
    requires 0 < a && r >= 2 * Dec.ONE * a
    ensures 2 * Dec.ONE * (a * r - (r - 1) * a) <= r < 2 * Dec.ONE * ((a + 1) * r - (r - 1) * a)
  {
    Dec.OneMore(r - 1, a);
    Dec.OneMore(a, r);
    assert a * r == r * a;
  }

  /** From 2 * 10^18 times on there is always an amount that gains a unit: one less than the offered rate. */
  lemma {:induction false} RoundTripGains(offerRate: nat, askRate: nat)
    requires 0 < askRate && offerRate >= 2 * Dec.ONE * askRate
    ensures SwapAmount(offerRate - 1, offerRate, askRate) == askRate
    ensures ThereAndBack(offerRate - 1, offerRate, askRate) == offerRate
  {
    OneLess(offerRate, askRate);
    SwapReaches(offerRate - 1, offerRate, askRate, askRate);
    SwapReaches(offerRate - 1, offerRate, askRate, askRate + 1);
    ExactSwap(askRate, offerRate);
  }
}
