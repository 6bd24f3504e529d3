/** The payout of x/budget: at the end of an epoch the budget's part of the seigniorage is minted to the programs. */
module BudgetPayout {
  import opened Wrappers
  import opened Sums
  import opened Coins
  import Dec
  import Ledger
  import Market
  import Mint
  import OracleSettlement

  /** One recipient's part of the reward pool, a decimal: multiplied first, divided after. */
  function Grant(pool: int, weightSum: int, weight: int): int
  {
    if weightSum == 0 then 0 else Dec.TruncateInt(Dec.QuoInt(Dec.MulInt(pool, weight), weightSum))
  }

  function Grants(claims: map<Addr, int>, who: set<Addr>, weightSum: int, pool: int): map<Addr, int>
  {
    map r | r in claims && r in who :: Grant(pool, weightSum, claims[r])
  }

  /** A decimal amount of a denomination to be paid out. */
  datatype Pool = Pool(denom: Denom, amount: int)

  /** The budget's part of an epoch's seigniorage, in SDR if there is a rate for it and in Luna otherwise; None if there
      is nothing to pay out. */
  function RewardPool(prices: Market.Prices, weight: int, seigniorage: int): (pool: Option<Pool>)
    ensures pool.Some? ==> pool.value.amount > 0
  {
    var luna := Dec.MulInt(Dec.ONE - weight, seigniorage);
    if luna <= 0 then None
    else
      match Market.GetSwapDecCoin(prices, LUNA, luna, SDR)
      case Ok(sdr) => Some(Pool(SDR, sdr))
      case Err(_) => Some(Pool(LUNA, luna))
  }

  // ---------------------------------------------------------------------------
  // What the roundings lose

  /** `g` units make up `pool * weights`, but for less than one unit on each of `n` roundings. */
  ghost predicate Rounded(pool: int, weights: int, unit: int, g: int, n: int)
  {
    g >= 0 && g * unit <= pool * weights <= g * unit + n * (unit - 1)
  }

  function Unit(weightSum: nat): nat { weightSum * Dec.ONE }

  /** Truncating twice is truncating once. */
  lemma {:induction false} GrantRounded(pool: nat, weightSum: nat, weight: nat)
    requires weightSum > 0
    ensures Rounded(pool, weight, Unit(weightSum), Grant(pool, weightSum, weight), 1)
  {
    var x: nat := Dec.Product(pool, weight);
    var q: nat := Quotient(x, weightSum);
    var g: nat := Quotient(q, Dec.ONE);
    assert g == Grant(pool, weightSum, weight);
    TruncatedTwice(pool, weight, weightSum, q, g);
  }

  function Quotient(a: nat, b: nat): (q: nat)
    requires b > 0
    ensures q == a / b && q * b <= a < q * b + b
  {
    Dec.DivBounds(a, b);
    a / b
  }

  lemma {:induction false} TruncatedTwice(pool: nat, weight: nat, b: nat, q: nat, g: nat)
    requires b > 0 && q * b <= pool * weight < q * b + b && g * Dec.ONE <= q < g * Dec.ONE + Dec.ONE
    ensures Rounded(pool, weight, Unit(b), g, 1)
  {
    var y := g * Dec.ONE;
    Dec.TimesMonotone(y, q, b);
    Dec.TimesMonotone(q + 1, y + Dec.ONE, b);
    assert g * (b * Dec.ONE) == y * b;
    assert (y + Dec.ONE) * b == y * b + b * Dec.ONE;
  }

  lemma {:induction false} RoundedAdd(pool: nat, v: int, w: int, unit: int, x: int, y: int, n: int)
    requires Rounded(pool, v, unit, x, 1) && Rounded(pool, w, unit, y, n)
    ensures Rounded(pool, w + v, unit, y + x, n + 1)
  {
    assert pool * (w + v) == pool * w + pool * v;
    assert (y + x) * unit == y * unit + x * unit;
    assert (n + 1) * (unit - 1) == n * (unit - 1) + (unit - 1);
  }

  lemma {:induction false} GrantsOfNobody(claims: map<Addr, int>, weightSum: int, pool: int)
    ensures Total(Grants(claims, {}, weightSum, pool)) == 0
  {
    assert Grants(claims, {}, weightSum, pool) == map[];
  }

  lemma {:induction false} GrantsRounded(claims: map<Addr, int>, who: set<Addr>, weightSum: nat, pool: nat)
    requires NonNegative(claims) && weightSum > 0 && who <= claims.Keys
    ensures Rounded(pool, Total(OracleSettlement.Weights(claims, who)), Unit(weightSum),
            Total(Grants(claims, who, weightSum, pool)), |who|)
    decreases who
  {
    if who == {} {
      GrantsOfNobody(claims, weightSum, pool);
      OracleSettlement.DueOfNobody(claims, weightSum, pool);
    } else {
      var r :| r in who;
      var rest := who - {r};
      assert who == rest + {r};
      GrantsRounded(claims, rest, weightSum, pool);
      GrantsTotal(claims, rest, weightSum, pool, r);
      OracleSettlement.WeightsStep(claims, rest, r);
      OneGrantMore(pool, weightSum, claims[r],
          Total(OracleSettlement.Weights(claims, rest)), Total(Grants(claims, rest, weightSum, pool)), |rest|,
          Total(OracleSettlement.Weights(claims, who)), Total(Grants(claims, who, weightSum, pool)), |who|);
    }
  }

  lemma {:induction false} OneGrantMore(pool: nat, weightSum: nat, weight: nat, w: int, y: int, n: int,
          w': int, y': int, n': int)
    requires weightSum > 0 && Rounded(pool, w, Unit(weightSum), y, n)
    requires w' == w + weight && y' == y + Grant(pool, weightSum, weight) && n' == n + 1
    ensures Rounded(pool, w', Unit(weightSum), y', n')
  {
    GrantRounded(pool, weightSum, weight);
    RoundedAdd(pool, weight, w, Unit(weightSum), Grant(pool, weightSum, weight), y, n);
  }

  /** The programs receive no more than the pool, and less than one coin a claim less than it. */
  lemma {:induction false} PayoutExact(claims: map<Addr, int>, pool: nat)
    requires NonNegative(claims) && Total(claims) > 0
    ensures var paid := Total(Grants(claims, claims.Keys, Total(claims), pool));
            paid * Dec.ONE <= pool < (paid + |claims|) * Dec.ONE
  {
    var weightSum := Total(claims);
    assert OracleSettlement.Weights(claims, claims.Keys) == claims;
    GrantsRounded(claims, claims.Keys, weightSum, pool);
    assert |claims.Keys| == |claims|;
    assert |claims| != 0 by {
      assert claims != map[];
    }
    CancelWeight(pool, weightSum, Total(Grants(claims, claims.Keys, weightSum, pool)), |claims|);
  }

  lemma {:induction false} CancelWeight(pool: nat, weightSum: nat, paid: int, n: nat)
    requires weightSum > 0 && n > 0 && Rounded(pool, weightSum, Unit(weightSum), paid, n)
    ensures paid * Dec.ONE <= pool < (paid + n) * Dec.ONE
  {
    assert paid * (weightSum * Dec.ONE) == (paid * Dec.ONE) * weightSum;
    assert n * (weightSum * Dec.ONE - 1) == (n * Dec.ONE) * weightSum - n;
    assert paid * Dec.ONE > pool ==> (paid * Dec.ONE) * weightSum > pool * weightSum;
    assert pool >= (paid + n) * Dec.ONE ==> pool * weightSum >= ((paid + n) * Dec.ONE) * weightSum;
    assert ((paid + n) * Dec.ONE) * weightSum == (paid * Dec.ONE) * weightSum + (n * Dec.ONE) * weightSum;
  }

  // ---------------------------------------------------------------------------
  // When the payout goes through

  /** The bank refuses to add a coin of amount zero, and the end blocker panics on it. */
  predicate Payable(claims: map<Addr, int>, who: set<Addr>, weightSum: int, pool: int)
  {
    forall r :: r in claims && r in who ==> Grant(pool, weightSum, claims[r]) > 0
  }

  /** So every claim must be worth at least one coin. */
  lemma {:induction false} PayableExactly(claims: map<Addr, int>, pool: nat)
    requires NonNegative(claims)
    ensures Payable(claims, claims.Keys, Total(claims), pool)
       <==> forall r :: r in claims ==> claims[r] > 0 && pool * claims[r] >= Total(claims) * Dec.ONE
  {
    TotalNonNegative(claims);
    forall r | r in claims
      ensures Grant(pool, Total(claims), claims[r]) > 0
         <==> claims[r] > 0 && pool * claims[r] >= Total(claims) * Dec.ONE
    {
      if Total(claims) > 0 {
        GrantRounded(pool, Total(claims), claims[r]);
        AtLeastOne(pool, claims[r], Unit(Total(claims)), Grant(pool, Total(claims), claims[r]));
      } else {
        EntryAtMostTotal(claims, r);
      }
    }
  }

  lemma {:induction false} AtLeastOne(pool: int, weight: int, unit: int, g: int)
    requires unit > 0 && Rounded(pool, weight, unit, g, 1)
    ensures g > 0 <==> pool * weight >= unit
  {
    assert g > 0 ==> g * unit >= unit;
  }

  /** From `s` to `t` every account gained its grant, nothing else moved, and recorded issuance moved with it. */
  ghost predicate PaidOut(s: Mint.State, t: Mint.State, d: Denom, grants: map<Addr, int>)
  {
    && Mint.Evolves(s, t)
    && (forall a, e ::
          Get(Row(t.balances, a), e) == Get(Row(s.balances, a), e) + (if e == d then Get(grants, a) else 0))
    && BookTotal(t.balances, d) == BookTotal(s.balances, d) + Total(grants)
  }

  lemma {:induction false} PaidOneMore(s: Mint.State, t: Mint.State, d: Denom, grants: map<Addr, int>, r: Addr, x: int)
    requires PaidOut(s, t, d, grants) && r !in grants && x > 0
    ensures Mint.MintCoin(t, r, d, x).Ok? && PaidOut(s, Mint.MintCoin(t, r, d, x).value, d, grants[r := x])
  {
    Ledger.MintFits(t, r, d, x);
    var t' := Mint.MintCoin(t, r, d, x).value;
    Ledger.MintEvolves(t, r, d, x);
    Mint.EvolvesTransitive(s, t, t');
    TotalUpdate(grants, r, x);
    forall a, e
      ensures Get(Row(t'.balances, a), e) == Get(Row(s.balances, a), e) + (if e == d then Get(grants[r := x], a) else 0)
    {
      CreditRow(t.balances, r, d, x, a, e);
    }
  }

  /** The claims of `done` have been paid. */
  ghost predicate Progress(s: Mint.State, t: Mint.State, d: Denom, claims: map<Addr, int>, done: set<Addr>,
          weightSum: int, pool: int)
  {
    Payable(claims, done, weightSum, pool) && PaidOut(s, t, d, Grants(claims, done, weightSum, pool))
  }

  lemma {:induction false} ProgressStep(s: Mint.State, t: Mint.State, d: Denom, claims: map<Addr, int>,
          done: set<Addr>, weightSum: int, pool: int, r: Addr)
    requires Progress(s, t, d, claims, done, weightSum, pool) && r in claims && r !in done
             && Grant(pool, weightSum, claims[r]) > 0
    ensures var m := Mint.MintCoin(t, r, d, Grant(pool, weightSum, claims[r]));
            m.Ok? && Progress(s, m.value, d, claims, done + {r}, weightSum, pool)
  {
    var reward := Grant(pool, weightSum, claims[r]);
    GrantsStep(claims, done, weightSum, pool, r);
    PaidOneMore(s, t, d, Grants(claims, done, weightSum, pool), r, reward);
  }

  lemma {:induction false} GrantsStep(claims: map<Addr, int>, done: set<Addr>, weightSum: int, pool: int, r: Addr)
    requires r in claims && r !in done
    ensures Grants(claims, done + {r}, weightSum, pool)
            == Grants(claims, done, weightSum, pool)[r := Grant(pool, weightSum, claims[r])]
    ensures Payable(claims, done + {r}, weightSum, pool)
       <==> Payable(claims, done, weightSum, pool) && Grant(pool, weightSum, claims[r]) > 0
  {
  }

  lemma {:induction false} GrantsTotal(claims: map<Addr, int>, done: set<Addr>, weightSum: int, pool: int, r: Addr)
    requires r in claims && r !in done
    ensures Total(Grants(claims, done + {r}, weightSum, pool))
         == Total(Grants(claims, done, weightSum, pool)) + Grant(pool, weightSum, claims[r])
  {
    GrantsStep(claims, done, weightSum, pool, r);
    TotalUpdate(Grants(claims, done, weightSum, pool), r, Grant(pool, weightSum, claims[r]));
  }

  lemma {:induction false} PaidNothing(s: Mint.State, d: Denom)
    requires Mint.Sound(s)
    ensures PaidOut(s, s, d, map[])
  {
    Ledger.EvolvesToItself(s);
    var none: map<Addr, int> := map[];
    assert Total(none) == 0 && forall a :: Get(none, a) == 0;
  }

  /** Reads before the payout do not show in what was paid. */
  lemma {:induction false} PaidAfterRead(s: Mint.State, read: Mint.State, t: Mint.State, d: Denom,
          grants: map<Addr, int>)
    requires Mint.Evolves(s, read) && read.balances == s.balances && PaidOut(read, t, d, grants)
    ensures PaidOut(s, t, d, grants)
  {
    Mint.EvolvesTransitive(s, read, t);
  }

  /** The pass over the claims, in any order; false where the code panics. */
  method PayClaims(mk: Mint.Keeper, claims: map<Addr, int>, weightSum: int, d: Denom, pool: int) returns (ok: bool)
    requires Mint.Sound(mk.Value())
    modifies mk`balances, mk`issuance, mk`notBonded
    ensures ok <==> Payable(claims, claims.Keys, weightSum, pool)
    ensures ok ==>
            mk.notBonded == old(mk.notBonded) + Mint.LunaPart(d, Total(Grants(claims, claims.Keys, weightSum, pool)))
    ensures ok ==> PaidOut(old(mk.Value()), mk.Value(), d, Grants(claims, claims.Keys, weightSum, pool))
  {
    var todo := claims.Keys;
    ghost var done: set<Addr> := {};
    ghost var s := mk.Value();
    PaidNothing(s, d);
    assert Grants(claims, done, weightSum, pool) == map[];
    while todo != {}
      invariant done !! todo && done + todo == claims.Keys
      invariant Progress(s, mk.Value(), d, claims, done, weightSum, pool)
      invariant mk.notBonded == old(mk.notBonded) + Mint.LunaPart(d, Total(Grants(claims, done, weightSum, pool)))
      decreases todo
    {
      var r :| r in todo;
      var reward := Grant(pool, weightSum, claims[r]);
      if reward <= 0 {
        return false;
      }
      ProgressStep(s, mk.Value(), d, claims, done, weightSum, pool, r);
      GrantsTotal(claims, done, weightSum, pool, r);
      ok := mk.Mint(r, d, reward);
      todo := todo - {r};
      done := done + {r};
    }
    assert done == claims.Keys;
    ok := true;
  }
}
