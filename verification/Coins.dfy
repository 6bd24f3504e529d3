/** Coins by denomination, and books of accounts that hold them. */
module Coins {
  import opened Sums

  datatype Addr = Addr(text: string)
  datatype Denom = Denom(name: string)
  type Coins = map<Denom, int>

  /** Account to holdings: balances, or outstanding validator rewards. */
  type Book = map<Addr, Coins>

  const LUNA: Denom := Denom("uluna")
  const SDR: Denom := Denom("usdr")

  function AddCoins(a: Coins, b: Coins): Coins
  {
    map d | d in a.Keys + b.Keys :: Get(a, d) + Get(b, d)
  }

  lemma {:induction false} AddCoinsGet(a: Coins, b: Coins, d: Denom)
    ensures Get(AddCoins(a, b), d) == Get(a, d) + Get(b, d)
  {
  }

  function Row(b: Book, a: Addr): Coins
  {
    if a in b then b[a] else map[]
  }

  function Credit(b: Book, a: Addr, coins: Coins): Book
  {
    b[a := AddCoins(Row(b, a), coins)]
  }

  /** What each account holds of one denomination. */
  function Column(b: Book, d: Denom): map<Addr, int>
  {
    map a | a in b :: Get(b[a], d)
  }

  ghost function BookTotal(b: Book, d: Denom): int
  {
    Total(Column(b, d))
  }

  lemma {:induction false} CreditColumn(b: Book, a: Addr, coins: Coins, d: Denom)
    ensures Column(Credit(b, a, coins), d) == Column(b, d)[a := Get(Row(b, a), d) + Get(coins, d)]
    ensures Get(Column(b, d), a) == Get(Row(b, a), d)
  {
    AddCoinsGet(Row(b, a), coins, d);
  }

  /** Crediting an account changes the total by exactly the amount credited. */
  lemma {:induction false} CreditTotal(b: Book, a: Addr, coins: Coins, d: Denom)
    ensures BookTotal(Credit(b, a, coins), d) == BookTotal(b, d) + Get(coins, d)
  {
    CreditColumn(b, a, coins, d);
    TotalUpdate(Column(b, d), a, Get(Row(b, a), d) + Get(coins, d));
  }

  lemma {:induction false} CreditRow(b: Book, r: Addr, d: Denom, x: int, a: Addr, e: Denom)
    ensures Get(Row(Credit(b, r, map[d := x]), a), e) == Get(Row(b, a), e) + (if a == r && e == d then x else 0)
  {
    AddCoinsGet(Row(b, r), map[d := x], e);
  }

  ghost predicate BookNonNegative(b: Book)
  {
    forall a :: a in b ==> NonNegative(b[a])
  }

  lemma {:induction false} BookTotalNonNegative(b: Book, d: Denom)
    requires BookNonNegative(b)
    ensures BookTotal(b, d) >= 0
  {
    TotalNonNegative(Column(b, d));
  }

  /** An account never holds more than the total. */
  lemma {:induction false} AccountAtMostTotal(b: Book, a: Addr, d: Denom)
    requires BookNonNegative(b)
    ensures 0 <= Get(Row(b, a), d) <= BookTotal(b, d)
  {
    EntryAtMostTotal(Column(b, d), a);
  }
}
