/** Price ballots of x/oracle/ballot.go: voting power and the stake-weighted median. */
module Ballot {
  import opened Coins

  /** The validator set of a block: operator address to bonded tokens. */
  type Validators = map<Addr, nat>

  datatype PriceVote = PriceVote(price: int, denom: Denom, voter: Addr)

  /** A range of prices, used to say which votes a sum of power covers. */
  datatype Range = Any | UpTo(hi: int) | Above(hi: int) | Outside(lo: int, hi: int) {
    predicate Has(price: int)
    {
      match this
      case Any => true
      case UpTo(h) => price <= h
      case Above(h) => price > h
      case Outside(l, h) => price < l || price > h
    }
  }

  function Stake(v: PriceVote, vals: Validators, r: Range): nat
  {
    if v.voter in vals && r.Has(v.price) then vals[v.voter] else 0
  }

  /** Bonded tokens behind the votes of a ballot whose price lies in the range. */
  ghost function Power(b: multiset<PriceVote>, vals: Validators, r: Range): nat
  {
    if b == multiset{} then 0
    else
      var v :| v in b;
      Stake(v, vals, r) + Power(b - multiset{v}, vals, r)
  }

  ghost predicate IsValidatorPrice(b: multiset<PriceVote>, vals: Validators, p: int)
  {
    exists v :: v in b && v.voter in vals && v.price == p
  }

  ghost predicate HasValidator(b: multiset<PriceVote>, vals: Validators)
  {
    exists v :: v in b && v.voter in vals
  }

  ghost function Half(b: multiset<PriceVote>, vals: Validators): nat
  {
    Power(b, vals, Any) / 2
  }

  /** The least validator price at which the power voted for no more reaches half of the total, rounded
      down; zero when no voter is a validator. It mentions neither an order of the votes nor a sort. */
  ghost predicate IsWeightedMedian(b: multiset<PriceVote>, vals: Validators, m: int)
  {
    if !HasValidator(b, vals) then m == 0
    else
      && IsValidatorPrice(b, vals, m)
      && Power(b, vals, UpTo(m)) >= Half(b, vals)
      && forall p :: IsValidatorPrice(b, vals, p) && p < m ==> Power(b, vals, UpTo(p)) < Half(b, vals)
  }

  ghost predicate Sorted(s: seq<PriceVote>)
  {
    forall i, j :: 0 <= i < j < |s| ==> s[i].price <= s[j].price
  }

  // ---------------------------------------------------------------------------
  // Sums of power

  lemma {:induction false} PowerRemove(b: multiset<PriceVote>, vals: Validators, r: Range, v: PriceVote)
    requires v in b
    ensures Power(b, vals, r) == Stake(v, vals, r) + Power(b - multiset{v}, vals, r)
    decreases b
  {
    var first :| first in b && Power(b, vals, r) == Stake(first, vals, r) + Power(b - multiset{first}, vals, r);
    if first != v {
      var rest := b - multiset{first} - multiset{v};
      assert rest == b - multiset{v} - multiset{first};
      assert Power(b - multiset{first}, vals, r) == Stake(v, vals, r) + Power(rest, vals, r) by {
        PowerRemove(b - multiset{first}, vals, r, v);
      }
      assert Power(b - multiset{v}, vals, r) == Stake(first, vals, r) + Power(rest, vals, r) by {
        PowerRemove(b - multiset{v}, vals, r, first);
      }
    }
  }

  lemma {:induction false} PowerInsert(b: multiset<PriceVote>, vals: Validators, r: Range, v: PriceVote)
    ensures Power(b + multiset{v}, vals, r) == Power(b, vals, r) + Stake(v, vals, r)
  {
    PowerRemove(b + multiset{v}, vals, r, v);
    assert b + multiset{v} - multiset{v} == b;
  }

  /** Vote by vote no more stake, in total no more power. */
  lemma {:induction false} PowerWiden(b: multiset<PriceVote>, vals: Validators, r: Range, s: Range)
    requires forall v :: v in b ==> Stake(v, vals, r) <= Stake(v, vals, s)
    ensures Power(b, vals, r) <= Power(b, vals, s)
    decreases b
  {
    if b != multiset{} {
      var v :| v in b;
      var rest := b - multiset{v};
      assert Power(b, vals, r) == Stake(v, vals, r) + Power(rest, vals, r) by { PowerRemove(b, vals, r, v); }
      assert Power(b, vals, s) == Stake(v, vals, s) + Power(rest, vals, s) by { PowerRemove(b, vals, s, v); }
      PowerWiden(rest, vals, r, s);
    }
  }

  lemma {:induction false} NoPower(b: multiset<PriceVote>, vals: Validators, r: Range)
    requires forall v :: v in b ==> Stake(v, vals, r) == 0
    ensures Power(b, vals, r) == 0
    decreases b
  {
    if b != multiset{} {
      var v :| v in b;
      var rest := b - multiset{v};
      assert Power(b, vals, r) == Stake(v, vals, r) + Power(rest, vals, r) by { PowerRemove(b, vals, r, v); }
      NoPower(rest, vals, r);
    }
  }

  lemma {:induction false} PowerSplit(b: multiset<PriceVote>, vals: Validators, p: int)
    ensures Power(b, vals, Any) == Power(b, vals, UpTo(p)) + Power(b, vals, Above(p))
    decreases b
  {
    if b != multiset{} {
      var v :| v in b;
      var rest := b - multiset{v};
      assert Power(b, vals, Any) == Stake(v, vals, Any) + Power(rest, vals, Any) by { PowerRemove(b, vals, Any, v); }
      assert Power(b, vals, UpTo(p))
             == Stake(v, vals, UpTo(p)) + Power(rest, vals, UpTo(p)) by { PowerRemove(b, vals, UpTo(p), v); }
      assert Power(b, vals, Above(p))
             == Stake(v, vals, Above(p)) + Power(rest, vals, Above(p)) by { PowerRemove(b, vals, Above(p), v); }
      PowerSplit(rest, vals, p);
    }
  }

  lemma {:induction false} PowerUnion(a: multiset<PriceVote>, b: multiset<PriceVote>, vals: Validators, r: Range)
    ensures Power(a + b, vals, r) == Power(a, vals, r) + Power(b, vals, r)
    decreases b
  {
    if b == multiset{} {
      assert a + b == a;
    } else {
      var v :| v in b;
      PowerRemove(b, vals, r, v);
      PowerRemove(a + b, vals, r, v);
      assert a + b - multiset{v} == a + (b - multiset{v});
      PowerUnion(a, b - multiset{v}, vals, r);
    }
  }

  lemma {:induction false} SomeValidatorBehindPower(b: multiset<PriceVote>, vals: Validators, r: Range)
    returns (v: PriceVote)
    requires Power(b, vals, r) > 0
    ensures v in b && v.voter in vals && r.Has(v.price)
    decreases b
  {
    v :| v in b;
    if Stake(v, vals, r) == 0 {
      PowerRemove(b, vals, r, v);
      v := SomeValidatorBehindPower(b - multiset{v}, vals, r);
    }
  }

  // ---------------------------------------------------------------------------
  // The median is determined by the multiset of votes

  lemma {:induction false} MedianUnique(b: multiset<PriceVote>, vals: Validators, m: int, n: int)
    requires IsWeightedMedian(b, vals, m) && IsWeightedMedian(b, vals, n)
    ensures m == n
  {
  }

  /** Among the validator prices at or below a reaching one there is a least reaching one. */
  lemma {:induction false} LeastReachingPrice(b: multiset<PriceVote>, vals: Validators, p: int, pool: set<int>)
    returns (m: int)
    requires IsValidatorPrice(b, vals, p) && Power(b, vals, UpTo(p)) >= Half(b, vals)
    requires forall q :: IsValidatorPrice(b, vals, q) && q < p ==> q in pool
    ensures IsWeightedMedian(b, vals, m)
    decreases pool
  {
    if q :| IsValidatorPrice(b, vals, q) && q < p && Power(b, vals, UpTo(q)) >= Half(b, vals) {
      m := LeastReachingPrice(b, vals, q, pool - {q});
    } else {
      m := p;
    }
  }

  lemma {:induction false} HighestValidatorPrice(b: multiset<PriceVote>, vals: Validators) returns (p: int)
    requires HasValidator(b, vals)
    ensures IsValidatorPrice(b, vals, p)
    ensures forall v :: v in b && v.voter in vals ==> v.price <= p
    decreases b
  {
    var w :| w in b && w.voter in vals;
    var rest := b - multiset{w};
    p := w.price;
    if HasValidator(rest, vals) {
      var q := HighestValidatorPrice(rest, vals);
      if q > p {
        p := q;
      }
    }
    assert forall v :: v in b && v.voter in vals ==> v == w || v in rest;
  }

  lemma {:induction false} MedianExists(b: multiset<PriceVote>, vals: Validators)
    ensures exists m :: IsWeightedMedian(b, vals, m)
  {
    if HasValidator(b, vals) {
      var top := HighestValidatorPrice(b, vals);
      NoPower(b, vals, Above(top));
      PowerSplit(b, vals, top);
      var pool := set v | v in b :: v.price;
      var m := LeastReachingPrice(b, vals, top, pool);
    } else {
      assert IsWeightedMedian(b, vals, 0);
    }
  }

  ghost function Median(b: multiset<PriceVote>, vals: Validators): (m: int)
    ensures IsWeightedMedian(b, vals, m)
  {
    MedianExists(b, vals);
    var m :| IsWeightedMedian(b, vals, m);
    m
  }

  /** The highest validator price not above `n`: no power lies between the two. */
  lemma {:induction false} HighestUpTo(b: multiset<PriceVote>, vals: Validators, n: int, x: PriceVote) returns (q: int)
    requires x in b && x.voter in vals && x.price <= n
    ensures IsValidatorPrice(b, vals, q) && q <= n
    ensures Power(b, vals, UpTo(q)) == Power(b, vals, UpTo(n))
    decreases n - x.price
  {
    if y :| y in b && y.voter in vals && x.price < y.price <= n {
      q := HighestUpTo(b, vals, n, y);
    } else {
      q := x.price;
      PowerWiden(b, vals, UpTo(q), UpTo(n));
      PowerWiden(b, vals, UpTo(n), UpTo(q));
    }
  }

  /** The median halves the power: what is at or below it falls at most half a token short of half of all, and what is
      below it, where anybody voted less, at least a whole one. */
  lemma {:induction false} MedianHalves(b: multiset<PriceVote>, vals: Validators, below: PriceVote)
    requires below in b && below.voter in vals
    ensures var m, total := Median(b, vals), Power(b, vals, Any);
            && 2 * Power(b, vals, UpTo(m)) >= total - 1
            && (below.price < m ==> 2 * Power(b, vals, UpTo(m - 1)) <= total - 2)
  {
    var m := Median(b, vals);
    if below.price < m {
      var q := HighestUpTo(b, vals, m - 1, below);
      assert Power(b, vals, UpTo(q)) < Half(b, vals);
    }
  }

  /** A vote of somebody outside the validator set does not move the median. */
  lemma {:induction false} OutsidersDoNotCount(b: multiset<PriceVote>, vals: Validators, v: PriceVote)
    requires v.voter !in vals
    ensures Median(b + multiset{v}, vals) == Median(b, vals)
  {
    var c := b + multiset{v};
    var m := Median(b, vals);
    forall r { PowerInsert(b, vals, r, v); }
    assert forall u :: u in c && u.voter in vals <==> u in b && u.voter in vals;
    assert HasValidator(c, vals) <==> HasValidator(b, vals);
    assert forall p :: IsValidatorPrice(c, vals, p) <==> IsValidatorPrice(b, vals, p);
    assert IsWeightedMedian(c, vals, m);
    MedianUnique(c, vals, m, Median(c, vals));
  }

  /** Raising one vote's price never lowers the median. */
  lemma {:induction false} MedianMonotone(rest: multiset<PriceVote>, vals: Validators, v: PriceVote, price: int)
    requires price >= v.price
    ensures Median(rest + multiset{v}, vals) <= Median(rest + multiset{v.(price := price)}, vals)
  {
    var w := v.(price := price);
    if v.voter !in vals {
      OutsidersDoNotCount(rest, vals, v);
      OutsidersDoNotCount(rest, vals, w);
    } else {
      var n := Median(rest + multiset{w}, vals);
      var q := RaisedMedianReaches(rest, vals, v, price, n);
      var b, m := rest + multiset{v}, Median(rest + multiset{v}, vals);
      assert v in b;
      assert q < m ==> Power(b, vals, UpTo(q)) < Half(b, vals);
    }
  }

  /** The raised ballot's median already has half of the power at or below it in the original ballot. */
  lemma {:induction false} RaisedMedianReaches(rest: multiset<PriceVote>, vals: Validators, v: PriceVote, price: int,
          n: int) returns (q: int)
    requires price >= v.price && v.voter in vals
    requires IsWeightedMedian(rest + multiset{v.(price := price)}, vals, n)
    ensures IsValidatorPrice(rest + multiset{v}, vals, q) && q <= n
    ensures Power(rest + multiset{v}, vals, UpTo(q)) >= Half(rest + multiset{v}, vals)
  {
    var w := v.(price := price);
    var b, c := rest + multiset{v}, rest + multiset{w};
    PowerInsert(rest, vals, Any, v);
    PowerInsert(rest, vals, Any, w);
    PowerInsert(rest, vals, UpTo(n), v);
    PowerInsert(rest, vals, UpTo(n), w);
    assert w in c;
    var u :| u in c && u.voter in vals && u.price == n;
    q := HighestUpTo(b, vals, n, if u == w then v else u);
  }

  /** Votes outside [lo, hi] cannot drag the median out of it with less than half of the power. */
  lemma {:induction false} MedianRobust(b: multiset<PriceVote>, vals: Validators, lo: int, hi: int)
    requires lo <= hi
    requires Power(b, vals, Outside(lo, hi)) < Half(b, vals)
    ensures lo <= Median(b, vals) <= hi
  {
    var m := Median(b, vals);
    var some := SomeValidatorBehindPower(b, vals, Any);
    assert HasValidator(b, vals);
    if m < lo {
      PowerWiden(b, vals, UpTo(m), Outside(lo, hi));
    }
    PowerSplit(b, vals, hi);
    PowerWiden(b, vals, Above(hi), Outside(lo, hi));
    var x := SomeValidatorBehindPower(b, vals, UpTo(hi));
    var q := HighestUpTo(b, vals, hi, x);
    assert q < m ==> Power(b, vals, UpTo(q)) < Half(b, vals);
  }

  // ---------------------------------------------------------------------------
  // The code: in-place sort, then one pass over the votes

  /** `Less`: reports ties as less in both directions. */
  predicate Less(a: PriceVote, b: PriceVote)
  {
    a.price <= b.price
  }

  /** `sort.IsSorted` with the ordering above, which no pair of equal neighbours passes. */
  method IsSorted(pb: array<PriceVote>) returns (sorted: bool)
    ensures sorted ==> Sorted(pb[..])
    ensures sorted <==> forall i :: 0 < i < pb.Length ==> pb[i - 1].price < pb[i].price
  {
    var i := pb.Length - 1;
    sorted := true;
    while i > 0
      invariant -1 <= i < pb.Length
      invariant forall k :: i < k < pb.Length && 0 < k ==> pb[k - 1].price < pb[k].price
      invariant forall k, j :: i <= k < j < pb.Length && 0 <= k ==> pb[k].price < pb[j].price
    {
      if Less(pb[i], pb[i - 1]) {
        return false;
      }
      i := i - 1;
    }
  }

  ghost predicate SortedExcept(s: seq<PriceVote>, n: nat, hole: nat)
  {
    && hole < n <= |s|
    && (forall i, j :: 0 <= i < j < n && i != hole && j != hole ==> s[i].price <= s[j].price)
    && (forall i :: hole < i < n ==> s[hole].price <= s[i].price)
  }

  /** Insertion sort over swaps, as `sort.Sort` does it for short slices. */
  method Sort(pb: array<PriceVote>)
    modifies pb
    ensures Sorted(pb[..])
    ensures multiset(pb[..]) == multiset(old(pb[..]))
  {
    var n := 0;
    while n < pb.Length
      invariant 0 <= n <= pb.Length
      invariant Sorted(pb[..n])
      invariant multiset(pb[..]) == multiset(old(pb[..]))
    {
      SinkInto(pb, n);
      n := n + 1;
    }
    assert pb[..n] == pb[..];
  }

  method Swap(pb: array<PriceVote>, i: nat, j: nat)
    requires i < pb.Length && j < pb.Length
    modifies pb
    ensures pb[..] == old(pb[..])[i := old(pb[j])][j := old(pb[i])]
    ensures multiset(pb[..]) == multiset(old(pb[..]))
  {
    pb[i], pb[j] := pb[j], pb[i];
  }

  /** Moves the vote at `n` down to its place in the sorted prefix before it. */
  method SinkInto(pb: array<PriceVote>, n: nat)
    requires n < pb.Length && Sorted(pb[..n])
    modifies pb
    ensures Sorted(pb[..n + 1])
    ensures multiset(pb[..]) == multiset(old(pb[..]))
  {
    var j := n;
    while j > 0 && Less(pb[j], pb[j - 1])
      invariant 0 <= j <= n
      invariant SortedExcept(pb[..], n + 1, j)
      invariant multiset(pb[..]) == multiset(old(pb[..]))
    {
      ghost var before := pb[..];
      Swap(pb, j, j - 1);
      SwapKeepsOrder(before, n, j);
      j := j - 1;
    }
  }

  lemma {:induction false} SwapKeepsOrder(s: seq<PriceVote>, n: nat, j: nat)
    requires 0 < j <= n < |s| && SortedExcept(s, n + 1, j) && s[j].price <= s[j - 1].price
    ensures SortedExcept(s[j := s[j - 1]][j - 1 := s[j]], n + 1, j - 1)
  {
  }

  lemma {:induction false} PowerOfNextPrefix(s: seq<PriceVote>, vals: Validators, i: nat)
    requires i < |s|
    ensures Power(multiset(s[..i + 1]), vals, Any) == Power(multiset(s[..i]), vals, Any) + Stake(s[i], vals, Any)
  {
    assert s[..i + 1] == s[..i] + [s[i]];
    assert multiset(s[..i + 1]) == multiset(s[..i]) + multiset{s[i]};
    PowerInsert(multiset(s[..i]), vals, Any, s[i]);
  }

  /** `power`: the bonded tokens of the voters that are validators. */
  method ComputePower(pb: seq<PriceVote>, vals: Validators) returns (total: nat)
    ensures total == Power(multiset(pb), vals, Any)
  {
    total := 0;
    for i := 0 to |pb|
      invariant total == Power(multiset(pb[..i]), vals, Any)
    {
      PowerOfNextPrefix(pb, vals, i);
      if pb[i].voter in vals {
        total := total + vals[pb[i].voter];
      }
    }
    assert pb[..|pb|] == pb;
  }

  lemma {:induction false} SplitBallot(s: seq<PriceVote>, i: nat)
    requires i <= |s|
    ensures multiset(s) == multiset(s[..i]) + multiset(s[i..])
  {
    assert s == s[..i] + s[i..];
  }

  lemma {:induction false} SortedSides(s: seq<PriceVote>, i: nat)
    requires Sorted(s) && i < |s|
    ensures forall v :: v in multiset(s[..i + 1]) ==> v.price <= s[i].price
    ensures forall v :: v in multiset(s[i..]) ==> v.price >= s[i].price
  {
    var front, back := s[..i + 1], s[i..];
    assert forall v :: v in multiset(front) ==> v in front;
    assert forall v :: v in multiset(back) ==> v in back;
  }

  /** In a sorted ballot the running power through position `i` is at most the power up to its price... */
  lemma {:induction false} RunningPowerWithin(s: seq<PriceVote>, vals: Validators, i: nat)
    requires Sorted(s) && i < |s|
    ensures Power(multiset(s[..i + 1]), vals, Any) <= Power(multiset(s), vals, UpTo(s[i].price))
  {
    SplitBallot(s, i + 1);
    SortedSides(s, i);
    PowerUnion(multiset(s[..i + 1]), multiset(s[i + 1..]), vals, UpTo(s[i].price));
    PowerWiden(multiset(s[..i + 1]), vals, Any, UpTo(s[i].price));
  }

  /** ... and the running power before it covers the power up to every lower price. */
  lemma {:induction false} RunningPowerCovers(s: seq<PriceVote>, vals: Validators, i: nat, p: int)
    requires Sorted(s) && i < |s| && p < s[i].price
    ensures Power(multiset(s), vals, UpTo(p)) <= Power(multiset(s[..i]), vals, Any)
  {
    SplitBallot(s, i);
    SortedSides(s, i);
    PowerUnion(multiset(s[..i]), multiset(s[i..]), vals, UpTo(p));
    PowerWiden(multiset(s[..i]), vals, UpTo(p), Any);
    NoPower(multiset(s[i..]), vals, UpTo(p));
  }

  /** `weightedMedian`. */
  method WeightedMedian(pb: array<PriceVote>, vals: Validators) returns (m: int)
    modifies pb
    ensures multiset(pb[..]) == multiset(old(pb[..]))
    ensures m == Median(multiset(old(pb[..])), vals)
  {
    var total := ComputePower(pb[..], vals);
    if pb.Length > 0 {
      var sorted := IsSorted(pb);
      if !sorted {
        Sort(pb);
      }
      m := FirstReaching(pb[..], vals, total);
    } else {
      m := 0;
    }
  }

  /** The pass over the sorted votes that accumulates power up to half of the total. */
  method FirstReaching(s: seq<PriceVote>, vals: Validators, total: nat) returns (m: int)
    requires Sorted(s) && total == Power(multiset(s), vals, Any)
    ensures m == Median(multiset(s), vals)
  {
    var pivot: nat := 0;
    for i := 0 to |s|
      invariant pivot == Power(multiset(s[..i]), vals, Any)
      invariant (exists k :: 0 <= k < i && s[k].voter in vals) ==> pivot < total / 2
    {
      PowerOfNextPrefix(s, vals, i);
      if s[i].voter !in vals {
        continue;
      }
      pivot := pivot + vals[s[i].voter];
      if pivot >= total / 2 {
        FirstToReachIsMedian(s, vals, i);
        return s[i].price;
      }
    }
    m := 0;
    assert s[..|s|] == s;
    NoValidatorMedian(s, vals);
  }

  lemma {:induction false} NoValidatorMedian(s: seq<PriceVote>, vals: Validators)
    requires forall k :: 0 <= k < |s| ==> s[k].voter !in vals
    ensures Median(multiset(s), vals) == 0
  {
    assert forall v :: v in multiset(s) ==> v in s;
    assert !HasValidator(multiset(s), vals);
  }

  /** The first validator vote at which the running power reaches half is the median. */
  lemma {:induction false} FirstToReachIsMedian(s: seq<PriceVote>, vals: Validators, i: nat)
    requires Sorted(s) && i < |s| && s[i].voter in vals
    requires Power(multiset(s[..i + 1]), vals, Any) >= Half(multiset(s), vals)
    requires (exists k :: 0 <= k < i && s[k].voter in vals)
             ==> Power(multiset(s[..i]), vals, Any) < Half(multiset(s), vals)
    ensures Median(multiset(s), vals) == s[i].price
  {
    var b := multiset(s);
    var m := s[i].price;
    RunningPowerWithin(s, vals, i);
    assert s[i] in b;
    forall p | IsValidatorPrice(b, vals, p) && p < m
      ensures Power(b, vals, UpTo(p)) < Half(b, vals)
    {
      var v :| v in b && v.voter in vals && v.price == p;
      assert v in s;
      var k :| 0 <= k < |s| && s[k] == v;
      assert k < i;
      RunningPowerCovers(s, vals, i, p);
    }
    assert IsValidatorPrice(b, vals, m);
    MedianUnique(b, vals, m, Median(b, vals));
  }
}
