/**
 Fixed-point decimals of the Cosmos SDK (`sdk.Dec`): a value is stored as an integer scaled by 10^18.
 `Mul`, `Quo` and `RoundInt` drop the extra digits rounding half to even; `QuoInt` and `TruncateInt`
 drop them towards zero; `MulInt` is exact.
 */
module Dec {

  const ONE: int := 1_000_000_000_000_000_000

  /** Integer division of Go's `big.Int.Quo`: towards zero. */
  function TruncDiv(a: int, b: int): (q: int)
    requires b != 0
  {
    if b < 0 then (if a < 0 then (-a) / (-b) else -(a / (-b)))
    else if a < 0 then -((-a) / b)
    else a / b
  }

  /** Drops 18 digits of a non-negative number, rounding half to even. */
  function ChopNat(n: nat): (q: nat)
  {
    var q := n / ONE;
    var rem := n % ONE;
    if 2 * rem < ONE || (2 * rem == ONE && q % 2 == 0) then q else q + 1
  }

  /** Drops 18 digits, rounding half to even; negative numbers are rounded by magnitude. */
  function Chop(n: int): (q: int)
  {
    if n < 0 then 0 - ChopNat(-n) else ChopNat(n)
  }

  function FromInt(n: int): int { n * ONE }

  function Mul(a: int, b: int): int { Chop(a * b) }

  function Quo(a: int, b: int): int
    requires b != 0
  {
    Chop(TruncDiv(a * ONE * ONE, b))
  }

  function MulInt(a: int, i: int): int { a * i }

  function QuoInt(a: int, i: int): int
    requires i != 0
  {
    TruncDiv(a, i)
  }

  function RoundInt(a: int): int { Chop(a) }

  function TruncateInt(a: int): int { TruncDiv(a, ONE) }

  function Abs(a: int): (r: nat) { if a < 0 then -a else a }

  function Min(a: int, b: int): int { if a < b then a else b }

  function Max(a: int, b: int): int { if a > b then a else b }

  /** A product that is known not to be negative. */
  function Product(a: nat, b: nat): (p: nat) ensures p == a * b { a * b }

  // ---------------------------------------------------------------------------
  // What the rounding means

  /** `q` is the nearest integer to `n / ONE`, the even one when two are equally near. */
  ghost predicate NearestEven(n: int, q: int)
  {
    && 2 * Abs(n - q * ONE) <= ONE
    && (2 * Abs(n - q * ONE) == ONE ==> q % 2 == 0)
  }

  lemma {:induction false} ChopNearest(n: int)
    ensures NearestEven(n, Chop(n))
  {
    var m := if n < 0 then -n else n;
    assert m == (m / ONE) * ONE + m % ONE;
  }

  /** The rounding rule determines the result. */
  lemma {:induction false} NearestEvenUnique(n: int, p: int, q: int)
    requires NearestEven(n, p) && NearestEven(n, q)
    ensures p == q
  {
    assert Abs(p - q) <= 1;
  }

  lemma {:induction false} ChopUnique(n: int, q: int)
    requires NearestEven(n, q)
    ensures Chop(n) == q
  {
    ChopNearest(n);
    NearestEvenUnique(n, Chop(n), q);
  }

  lemma {:induction false} ChopExact(k: int)
    ensures Chop(k * ONE) == k
  {
    ChopUnique(k * ONE, k);
  }

  lemma {:induction false} ChopMonotone(a: int, b: int)
    requires a <= b
    ensures Chop(a) <= Chop(b)
  {
    ChopNearest(a);
    ChopNearest(b);
    assert Chop(b) < Chop(a) ==> Chop(a) == Chop(b) + 1;
  }

  /** An integer times a decimal needs no rounding. */
  lemma {:induction false} MulFromInt(n: int, d: int)
    ensures Mul(FromInt(n), d) == n * d
  {
    assert FromInt(n) * d == (n * d) * ONE;
    ChopExact(n * d);
  }

  // ---------------------------------------------------------------------------
  // Products

  lemma {:induction false} TimesMonotone(a: int, c: int, b: nat)
    requires a <= c
    ensures a * b <= c * b
  {
    assert (c - a) * b >= 0;
  }

  lemma {:induction false} OneMore(n: int, c: int)
    ensures (n + 1) * c == n * c + c
  {
  }

  // ---------------------------------------------------------------------------
  // Truncating division

  lemma {:induction false} DivBounds(a: nat, b: nat)
    requires b > 0
    ensures (a / b) * b <= a < (a / b) * b + b
  {
  }

  lemma {:induction false} DivNonNegative(a: nat, b: nat)
    requires b > 0
    ensures a / b >= 0
  {
  }

  lemma {:induction false} DivUnique(a: nat, b: nat, q: nat)
    requires b > 0 && q * b <= a < q * b + b
    ensures a / b == q
  {
    var d := a / b;
    DivBounds(a, b);
    assert d < q ==> (d + 1) * b <= q * b;
    assert q < d ==> (q + 1) * b <= d * b;
  }

  lemma {:induction false} DivMonotone(a: nat, c: nat, b: nat)
    requires b > 0 && a <= c
    ensures a / b <= c / b
  {
    DivBounds(a, b);
    DivBounds(c, b);
    var p, q := a / b, c / b;
    assert q < p ==> (q + 1) * b <= p * b;
  }

  lemma {:induction false} TruncDivMonotone(a: int, c: int, b: int)
    requires b > 0 && a <= c
    ensures TruncDiv(a, b) <= TruncDiv(c, b)
  {
    if a >= 0 {
      DivMonotone(a, c, b);
    } else if c < 0 {
      DivMonotone(-c, -a, b);
    } else {
      DivNonNegative(-a, b);
      DivNonNegative(c, b);
    }
  }
}
