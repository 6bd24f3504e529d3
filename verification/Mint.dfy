/**
 Issuance tracking of x/mint/keeper.go: a table of per-day snapshots that reads fill lazily, and the plain
 history of supply changes it stands for.
 */
module Mint {
  import opened Wrappers
  import opened Sums
  import opened Coins
  import opened Epoch

  /** Store key of a snapshot. */
  datatype Snap = Snap(denom: Denom, day: int)

  type Table = map<Snap, int>

  datatype State = State(height: nat, balances: Book, issuance: Table)

  datatype Error = InvalidCoins | InsufficientCoins | NegativeIssuance

  // ---------------------------------------------------------------------------
  // What the operations do

  /** The snapshot of a day, or else of the last day before it that has one, or else `total`, the balance total. */
  function Lookup(t: Table, total: int, d: Denom, day: int): int
    decreases day
  {
    if Snap(d, day) in t then t[Snap(d, day)]
    else if day <= 0 then total
    else Lookup(t, total, d, day - 1)
  }

  /** The table after the snapshot of a day was looked up: every missing day on the way back is filled. */
  function Fill(t: Table, total: int, d: Denom, day: int): Table
    decreases day
  {
    if Snap(d, day) in t then t
    else (if day <= 0 then t else Fill(t, total, d, day - 1))[Snap(d, day) := Lookup(t, total, d, day)]
  }

  ghost function IssuanceChanged(s: State, d: Denom, delta: int): Result<State, Error>
  {
    var total, today := BookTotal(s.balances, d), Day(s.height);
    var filled := Fill(s.issuance, total, d, today);
    if Snap(d, 0) !in s.issuance then Ok(s.(issuance := filled))
    else
      var issuance := Lookup(s.issuance, total, d, today) + delta;
      if issuance < 0 then Err(NegativeIssuance)
      else Ok(s.(issuance := filled[Snap(d, today) := issuance]))
  }

  ghost function MintCoin(s: State, recipient: Addr, d: Denom, amount: int): Result<State, Error>
  {
    if amount <= 0 then Err(InvalidCoins)
    else IssuanceChanged(s.(balances := Credit(s.balances, recipient, map[d := amount])), d, amount)
  }

  ghost function BurnCoin(s: State, payer: Addr, d: Denom, amount: int): Result<State, Error>
  {
    if amount <= 0 then Err(InvalidCoins)
    else if Get(Row(s.balances, payer), d) < amount then Err(InsufficientCoins)
    else IssuanceChanged(s.(balances := Credit(s.balances, payer, map[d := -amount])), d, -amount)
  }

  // ---------------------------------------------------------------------------
  // The plain history

  datatype Delta = Delta(day: int, amount: int)

  /** Untouched so far, or the balance total at first touch followed by every successful change since. */
  datatype History = Untracked | Tracked(base: int, deltas: seq<Delta>)

  function SumUpTo(deltas: seq<Delta>, day: int): int
  {
    if deltas == [] then 0
    else
      var last := deltas[|deltas| - 1];
      SumUpTo(deltas[..|deltas| - 1], day) + (if last.day <= day then last.amount else 0)
  }

  /** Issuance at the end of a day, straight from the history. */
  function IssuanceAt(h: History, day: int): int
    requires h.Tracked?
  {
    h.base + SumUpTo(h.deltas, day)
  }

  /** The snapshots of `d` are exactly those of days 0 to `m`, each the issuance of its day. */
  ghost predicate FilledTo(t: Table, d: Denom, h: History, m: int)
  {
    && h.Tracked? && m >= 0
    && (forall day :: Snap(d, day) in t <==> 0 <= day <= m)
    && (forall day :: 0 <= day <= m ==> t[Snap(d, day)] == IssuanceAt(h, day))
    && (forall i :: 0 <= i < |h.deltas| ==> h.deltas[i].day <= m)
  }

  ghost predicate Represents(t: Table, d: Denom, h: History, today: int)
  {
    if h.Untracked? then forall day :: Snap(d, day) !in t
    else exists m :: m <= today && FilledTo(t, d, h, m)
  }

  lemma {:induction false} SumSettled(deltas: seq<Delta>, m: int, day: int)
    requires m <= day && forall i :: 0 <= i < |deltas| ==> deltas[i].day <= m
    ensures SumUpTo(deltas, day) == SumUpTo(deltas, m)
    decreases |deltas|
  {
    if deltas != [] {
      SumSettled(deltas[..|deltas| - 1], m, day);
    }
  }

  /** A lookup returns the issuance of its day, snapshot or not. */
  lemma {:induction false} LookupIsIssuance(t: Table, total: int, d: Denom, h: History, m: int, day: int)
    requires FilledTo(t, d, h, m) && day >= 0
    ensures Lookup(t, total, d, day) == IssuanceAt(h, day)
    decreases day
  {
    if day > m {
      LookupIsIssuance(t, total, d, h, m, day - 1);
      SumSettled(h.deltas, m, day);
      SumSettled(h.deltas, m, day - 1);
    }
  }

  lemma {:induction false} FillIsFilled(t: Table, total: int, d: Denom, h: History, m: int, day: int)
    requires FilledTo(t, d, h, m) && day >= 0
    ensures FilledTo(Fill(t, total, d, day), d, h, if day <= m then m else day)
    decreases day
  {
    if day > m {
      FillIsFilled(t, total, d, h, m, day - 1);
      LookupIsIssuance(t, total, d, h, m, day);
    }
  }

  /** First touch: the whole row is the balance total. */
  lemma {:induction false} FirstTouch(t: Table, total: int, d: Denom, day: int)
    requires day >= 0 && forall x :: Snap(d, x) !in t
    ensures Lookup(t, total, d, day) == total
    ensures FilledTo(Fill(t, total, d, day), d, Tracked(total, []), day)
    decreases day
  {
    if day > 0 {
      FirstTouch(t, total, d, day - 1);
    }
  }

  lemma {:induction false} FillOnlyOwnRow(t: Table, total: int, d: Denom, day: int, other: Snap)
    requires other.denom != d
    ensures other in Fill(t, total, d, day) <==> other in t
    ensures other in t ==> Fill(t, total, d, day)[other] == t[other]
    decreases day
  {
    if Snap(d, day) !in t && day > 0 {
      FillOnlyOwnRow(t, total, d, day - 1, other);
    }
  }

  // ---------------------------------------------------------------------------
  // Runs

  /** A chain together with the history of every denomination touched. */
  datatype Chain = Chain(state: State, histories: map<Denom, History>)

  datatype Event =
    | Mint(recipient: Addr, denom: Denom, amount: int)
    | Burn(payer: Addr, denom: Denom, amount: int)
    | Change(denom: Denom, delta: int)
    | Read(denom: Denom, day: nat)
    | Accounts(balances: Book)
    | NextBlock

  function HistoryOf(c: Chain, d: Denom): History
  {
    if d in c.histories then c.histories[d] else Untracked
  }

  /** A change starts the history of a denomination, or else appends to it. */
  function Extend(h: History, total: int, today: int, delta: int): History
  {
    match h
    case Untracked => Tracked(total, [])
    case Tracked(base, deltas) => Tracked(base, deltas + [Delta(today, delta)])
  }

  ghost function Changed(c: Chain, d: Denom, delta: int, r: Result<State, Error>): Chain
  {
    match r
    case Ok(s) => Chain(s, c.histories[d := Extend(HistoryOf(c, d), BookTotal(s.balances, d), Day(s.height), delta)])
    case Err(_) => c
  }

  ghost function Exec(c: Chain, e: Event): Chain
  {
    var s := c.state;
    match e
    case Mint(a, d, x) => Changed(c, d, x, MintCoin(s, a, d, x))
    case Burn(a, d, x) => Changed(c, d, -x, BurnCoin(s, a, d, x))
    case Change(d, x) => Changed(c, d, x, IssuanceChanged(s, d, x))
    case Read(d, day) =>
      if day > Day(s.height) then c
      else
        var total := BookTotal(s.balances, d);
        Chain(s.(issuance := Fill(s.issuance, total, d, day)),
              c.histories[d := if HistoryOf(c, d).Untracked? then Tracked(total, []) else HistoryOf(c, d)])
    case Accounts(balances) => Chain(s.(balances := balances), c.histories)
    case NextBlock => Chain(s.(height := s.height + 1), c.histories)
  }

  ghost function Run(c: Chain, events: seq<Event>): Chain
  {
    if events == [] then c else Exec(Run(c, events[..|events| - 1]), events[|events| - 1])
  }

  ghost predicate Refines(c: Chain)
  {
    forall d :: Represents(c.state.issuance, d, HistoryOf(c, d), Day(c.state.height))
  }

  lemma {:induction false} ChangeRefines(t: Table, s: State, d: Denom, h: History, delta: int)
    requires t == s.issuance && Represents(t, d, h, Day(s.height)) && IssuanceChanged(s, d, delta).Ok?
    ensures var total, today := BookTotal(s.balances, d), Day(s.height);
            Represents(IssuanceChanged(s, d, delta).value.issuance, d, Extend(h, total, today, delta), today)
  {
    var total, today := BookTotal(s.balances, d), Day(s.height);
    var t' := IssuanceChanged(s, d, delta).value.issuance;
    var h' := Extend(h, total, today, delta);
    match h
    case Untracked =>
      FirstTouch(t, total, d, today);
      assert FilledTo(t', d, h', today);
    case Tracked(base, deltas) =>
      var m :| m <= today && FilledTo(t, d, h, m);
      LookupIsIssuance(t, total, d, h, m, today);
      FillIsFilled(t, total, d, h, m, today);
      assert h'.deltas[..|deltas|] == deltas;
      assert FilledTo(t', d, h', today);
  }

  lemma {:induction false} ReadRefines(t: Table, total: int, d: Denom, h: History, day: nat, today: int)
    requires Represents(t, d, h, today) && day <= today
    ensures Represents(Fill(t, total, d, day), d, if h.Untracked? then Tracked(total, []) else h, today)
  {
    match h
    case Untracked =>
      FirstTouch(t, total, d, day);
    case Tracked(_, _) =>
      var m :| m <= today && FilledTo(t, d, h, m);
      FillIsFilled(t, total, d, h, m, day);
  }

  lemma {:induction false} OtherRowsKept(t: Table, t': Table, d: Denom, h: History, today: int)
    requires Represents(t, d, h, today)
    requires forall day :: Snap(d, day) in t' <==> Snap(d, day) in t
    requires forall day :: Snap(d, day) in t ==> t'[Snap(d, day)] == t[Snap(d, day)]
    ensures Represents(t', d, h, today)
  {
    if h.Tracked? {
      var m :| m <= today && FilledTo(t, d, h, m);
      assert FilledTo(t', d, h, m);
    }
  }

  lemma {:induction false} ChangedRefines(c: Chain, s: State, d: Denom, delta: int)
    requires Refines(c) && s.issuance == c.state.issuance && s.height == c.state.height
    ensures Refines(Changed(c, d, delta, IssuanceChanged(s, d, delta)))
  {
    var r := IssuanceChanged(s, d, delta);
    if r.Ok? {
      var c' := Changed(c, d, delta, r);
      forall x
        ensures Represents(c'.state.issuance, x, HistoryOf(c', x), Day(c'.state.height))
      {
        if x == d {
          ChangeRefines(s.issuance, s, d, HistoryOf(c, d), delta);
        } else {
          forall day { FillOnlyOwnRow(s.issuance, BookTotal(s.balances, d), d, Day(s.height), Snap(x, day)); }
          OtherRowsKept(s.issuance, c'.state.issuance, x, HistoryOf(c, x), Day(s.height));
        }
      }
    }
  }

  lemma {:induction false} ReadEventRefines(c: Chain, d: Denom, day: nat)
    requires Refines(c)
    ensures Refines(Exec(c, Read(d, day)))
  {
    var s, c' := c.state, Exec(c, Read(d, day));
    if day <= Day(s.height) {
      forall x
        ensures Represents(c'.state.issuance, x, HistoryOf(c', x), Day(c'.state.height))
      {
        if x == d {
          ReadRefines(s.issuance, BookTotal(s.balances, d), d, HistoryOf(c, d), day, Day(s.height));
        } else {
          forall y { FillOnlyOwnRow(s.issuance, BookTotal(s.balances, d), d, day, Snap(x, y)); }
          OtherRowsKept(s.issuance, c'.state.issuance, x, HistoryOf(c, x), Day(s.height));
        }
      }
    }
  }

  lemma {:induction false} NextBlockRefines(c: Chain)
    requires Refines(c)
    ensures Refines(Exec(c, NextBlock))
  {
    var c' := Exec(c, NextBlock);
    forall d
      ensures Represents(c'.state.issuance, d, HistoryOf(c', d), Day(c'.state.height))
    {
      var h := HistoryOf(c, d);
      assert HistoryOf(c', d) == h && Represents(c.state.issuance, d, h, Day(c.state.height));
      if h.Tracked? {
        var m :| m <= Day(c.state.height) && FilledTo(c.state.issuance, d, h, m);
        assert m <= Day(c'.state.height);
      }
    }
  }

  lemma {:induction false} ExecRefines(c: Chain, e: Event)
    requires Refines(c)
    ensures Refines(Exec(c, e))
  {
    var s := c.state;
    match e
    case Mint(a, d, x) =>
      if x > 0 { ChangedRefines(c, s.(balances := Credit(s.balances, a, map[d := x])), d, x); }
    case Burn(a, d, x) =>
      if x > 0 { ChangedRefines(c, s.(balances := Credit(s.balances, a, map[d := -x])), d, -x); }
    case Change(d, x) => ChangedRefines(c, s, d, x);
    case Read(d, day) => ReadEventRefines(c, d, day);
    case Accounts(_) =>
      forall d
        ensures Represents(s.issuance, d, HistoryOf(Exec(c, e), d), Day(s.height))
      {
        assert HistoryOf(Exec(c, e), d) == HistoryOf(c, d);
      }
    case NextBlock =>
      NextBlockRefines(c);
  }

  /** Every run of mints, burns, changes, reads and account activity keeps the table equal to the history. */
  lemma {:induction false} TableRefinesHistory(c: Chain, events: seq<Event>)
    requires c.state.issuance == map[] && c.histories == map[]
    ensures Refines(Run(c, events))
    decreases |events|
  {
    if events != [] {
      TableRefinesHistory(c, events[..|events| - 1]);
      ExecRefines(Run(c, events[..|events| - 1]), events[|events| - 1]);
    }
  }

  /** After any run, a lookup of any day up to today is the first-touch total plus the changes up to that day. */
  lemma {:induction false} LookupAfterRun(c: Chain, events: seq<Event>, d: Denom, day: nat)
    requires c.state.issuance == map[] && c.histories == map[]
    requires HistoryOf(Run(c, events), d).Tracked? && day <= Day(Run(c, events).state.height)
    ensures var c' := Run(c, events);
            Lookup(c'.state.issuance, BookTotal(c'.state.balances, d), d, day) == IssuanceAt(HistoryOf(c', d), day)
  {
    var c' := Run(c, events);
    TableRefinesHistory(c, events);
    var h := HistoryOf(c', d);
    assert Represents(c'.state.issuance, d, h, Day(c'.state.height));
    var m :| m <= Day(c'.state.height) && FilledTo(c'.state.issuance, d, h, m);
    LookupIsIssuance(c'.state.issuance, BookTotal(c'.state.balances, d), d, h, m, day);
  }

  lemma {:induction false} SumAppend(deltas: seq<Delta>, x: Delta, day: int)
    ensures SumUpTo(deltas + [x], day) == SumUpTo(deltas, day) + (if x.day <= day then x.amount else 0)
  {
    assert (deltas + [x])[..|deltas|] == deltas;
  }

  /** An event appends at most one change, of the current day. */
  lemma {:induction false} ExecAppends(c: Chain, e: Event, d: Denom, day: int)
    requires HistoryOf(c, d).Tracked? && day < Day(c.state.height)
    ensures HistoryOf(Exec(c, e), d).Tracked?
    ensures IssuanceAt(HistoryOf(Exec(c, e), d), day) == IssuanceAt(HistoryOf(c, d), day)
    ensures Day(Exec(c, e).state.height) >= Day(c.state.height)
  {
    var h, h' := HistoryOf(c, d), HistoryOf(Exec(c, e), d);
    if h' != h {
      assert |h'.deltas| == |h.deltas| + 1 && h'.base == h.base;
      var x := h'.deltas[|h.deltas|];
      assert h'.deltas == h.deltas + [x] && x.day == Day(c.state.height);
      SumAppend(h.deltas, x, day);
    }
  }

  lemma {:induction false} HistoryKeepsPast(c: Chain, events: seq<Event>, d: Denom, day: int)
    requires HistoryOf(c, d).Tracked? && day < Day(c.state.height)
    ensures HistoryOf(Run(c, events), d).Tracked?
    ensures IssuanceAt(HistoryOf(Run(c, events), d), day) == IssuanceAt(HistoryOf(c, d), day)
    ensures Day(Run(c, events).state.height) >= Day(c.state.height)
    decreases |events|
  {
    if events != [] {
      HistoryKeepsPast(c, events[..|events| - 1], d, day);
      ExecAppends(Run(c, events[..|events| - 1]), events[|events| - 1], d, day);
    }
  }

  lemma {:induction false} RunAppend(c: Chain, a: seq<Event>, b: seq<Event>)
    ensures Run(c, a + b) == Run(Run(c, a), b)
    decreases |b|
  {
    if b == [] {
      assert a + b == a;
    } else {
      assert (a + b)[..|a + b| - 1] == a + b[..|b| - 1];
      RunAppend(c, a, b[..|b| - 1]);
    }
  }

  /** What `GetIssuance` answers for a day. */
  ghost function Answer(c: Chain, d: Denom, day: int): int
  {
    Lookup(c.state.issuance, BookTotal(c.state.balances, d), d, day)
  }

  /** Days that are over never change: once a denomination is tracked, `GetIssuance` answers the same for a past day
      after every continuation of the run. */
  lemma {:induction false} PastIsFixed(c: Chain, a: seq<Event>, b: seq<Event>, d: Denom, day: nat)
    requires c.state.issuance == map[] && c.histories == map[]
    requires Snap(d, 0) in Run(c, a).state.issuance && day < Day(Run(c, a).state.height)
    ensures Answer(Run(c, a + b), d, day) == Answer(Run(c, a), d, day)
  {
    TableRefinesHistory(c, a);
    assert Represents(Run(c, a).state.issuance, d, HistoryOf(Run(c, a), d), Day(Run(c, a).state.height));
    RunAppend(c, a, b);
    HistoryKeepsPast(Run(c, a), b, d, day);
    LookupAfterRun(c, a, d, day);
    LookupAfterRun(c, a + b, d, day);
  }

  /** Reading any day changes the answer to no other read, as long as the denomination is tracked or the
      account balances stay as they are. */
  lemma {:induction false} ReadsAreInvisible(t: Table, total: int, d: Denom, day: int, total': int, other: Denom,
          day': int)
    requires (Snap(d, 0) in t || total == total') && day >= 0 && day' >= 0
    ensures Lookup(Fill(t, total, d, day), total', other, day') == Lookup(t, total', other, day')
    decreases day'
  {
    FillContents(t, total, d, day, Snap(other, day'));
    if Snap(other, day') in t {
    } else if Snap(other, day') in Fill(t, total, d, day) {
      if total != total' {
        TotalUnused(t, total, total', d, day');
      }
    } else if day' > 0 {
      ReadsAreInvisible(t, total, d, day, total', other, day' - 1);
    }
  }

  /** What a lookup stores: for each day it fills, what a lookup of that day would have returned. */
  lemma {:induction false} FillContents(t: Table, total: int, d: Denom, day: int, snap: Snap)
    ensures snap in t ==> snap in Fill(t, total, d, day) && Fill(t, total, d, day)[snap] == t[snap]
    ensures snap !in t && snap in Fill(t, total, d, day) ==>
              snap.denom == d && snap.day <= day && Fill(t, total, d, day)[snap] == Lookup(t, total, d, snap.day)
    decreases day
  {
    if Snap(d, day) !in t && day > 0 {
      FillContents(t, total, d, day - 1, snap);
    }
  }

  lemma {:induction false} TotalUnused(t: Table, total: int, total': int, d: Denom, day: int)
    requires Snap(d, 0) in t && day >= 0
    ensures Lookup(t, total, d, day) == Lookup(t, total', d, day)
    decreases day
  {
    if Snap(d, day) !in t {
      TotalUnused(t, total, total', d, day - 1);
    }
  }

  // ---------------------------------------------------------------------------
  // What an operation changes, and what it leaves alone

  predicate IsTracked(s: State, d: Denom) { Snap(d, 0) in s.issuance }

  /** Today's issuance. */
  ghost function Current(s: State, d: Denom): int
  {
    Lookup(s.issuance, BookTotal(s.balances, d), d, Day(s.height))
  }

  /** Recorded issuance less what accounts hold. */
  ghost function Gap(s: State, d: Denom): int
  {
    Current(s, d) - BookTotal(s.balances, d)
  }

  ghost predicate TableSound(t: Table, today: int)
  {
    forall sn :: sn in t ==> 0 <= sn.day <= today && t[sn] >= 0 && Snap(sn.denom, 0) in t
  }

  ghost predicate Sound(s: State)
  {
    TableSound(s.issuance, Day(s.height)) && BookNonNegative(s.balances)
  }

  /** Tracked denominations stay tracked, their past days stay fixed, and recorded issuance moves with balances; one
      that becomes tracked starts with what accounts hold. */
  ghost predicate Evolves(s: State, s': State)
  {
    && s'.height == s.height && Sound(s')
    && (forall d :: IsTracked(s, d) ==> Keeps(s, s', d))
    && (forall d :: !IsTracked(s, d) && IsTracked(s', d) ==> Gap(s', d) == 0)
  }

  ghost predicate Keeps(s: State, s': State, d: Denom)
  {
    IsTracked(s', d) && Gap(s', d) == Gap(s, d) && SamePast(s.issuance, s'.issuance, d, Day(s.height))
  }

  ghost predicate SamePast(t: Table, t': Table, d: Denom, today: int)
  {
    forall total, day :: 0 <= day < today ==> Lookup(t', total, d, day) == Lookup(t, total, d, day)
  }

  lemma {:induction false} LookupNonNegative(t: Table, total: int, d: Denom, day: int, today: int)
    requires TableSound(t, today) && total >= 0
    ensures Lookup(t, total, d, day) >= 0
    decreases day
  {
    if Snap(d, day) !in t && day > 0 {
      LookupNonNegative(t, total, d, day - 1, today);
    }
  }

  lemma {:induction false} FillSound(t: Table, total: int, d: Denom, day: int, today: int)
    requires TableSound(t, today) && total >= 0 && 0 <= day <= today
    ensures TableSound(Fill(t, total, d, day), today) && Snap(d, 0) in Fill(t, total, d, day)
    decreases day
  {
    if Snap(d, day) !in t {
      LookupNonNegative(t, total, d, day, today);
      if day > 0 {
        FillSound(t, total, d, day - 1, today);
      }
    }
  }

  lemma {:induction false} FillHasDay(t: Table, total: int, d: Denom, day: int)
    ensures Snap(d, day) in Fill(t, total, d, day) && Fill(t, total, d, day)[Snap(d, day)] == Lookup(t, total, d, day)
  {
  }

  /** An entry is invisible to lookups of other denominations and of earlier days. */
  lemma {:induction false} UpdateInvisible(t: Table, sn: Snap, v: int, total: int, d: Denom, day: int)
    requires d != sn.denom || day < sn.day
    ensures Lookup(t[sn := v], total, d, day) == Lookup(t, total, d, day)
    decreases day
  {
    if Snap(d, day) !in t && day > 0 {
      UpdateInvisible(t, sn, v, total, d, day - 1);
    }
  }

  /** A read, whatever it fills, is an evolution that changes no balance and no lookup. */
  lemma {:induction false} ReadEvolves(s: State, d: Denom, day: int)
    requires Sound(s) && 0 <= day <= Day(s.height)
    ensures var s' := s.(issuance := Fill(s.issuance, BookTotal(s.balances, d), d, day));
            Evolves(s, s') && IsTracked(s', d)
  {
    var total, today := BookTotal(s.balances, d), Day(s.height);
    var s' := s.(issuance := Fill(s.issuance, total, d, day));
    BookTotalNonNegative(s.balances, d);
    FillSound(s.issuance, total, d, day, today);
    forall e | IsTracked(s, e)
      ensures Keeps(s, s', e)
    {
      FillContents(s.issuance, total, d, day, Snap(e, 0));
      FillKeepsLookups(s, d, day, e, today);
    }
    forall e | !IsTracked(s, e) && IsTracked(s', e)
      ensures Gap(s', e) == 0
    {
      FillTracksOwn(s.issuance, total, d, day, e);
      TouchCounts(s, d, day);
    }
  }

  lemma {:induction false} FillTracksOwn(t: Table, total: int, d: Denom, day: int, e: Denom)
    ensures Snap(e, 0) !in t && Snap(e, 0) in Fill(t, total, d, day) ==> e == d
  {
    if e != d {
      FillOnlyOwnRow(t, total, d, day, Snap(e, 0));
    }
  }

  /** The first touch of a denomination counts the accounts, and every lookup repeats that. */
  lemma {:induction false} TouchCounts(s: State, d: Denom, day: int)
    requires Sound(s) && !IsTracked(s, d) && 0 <= day <= Day(s.height)
    ensures Gap(s.(issuance := Fill(s.issuance, BookTotal(s.balances, d), d, day)), d) == 0
  {
    assert forall x :: Snap(d, x) !in s.issuance;
    TouchedLookup(s.issuance, BookTotal(s.balances, d), d, day, Day(s.height));
  }

  lemma {:induction false} TouchedLookup(t: Table, total: int, d: Denom, day: nat, today: nat)
    requires forall x :: Snap(d, x) !in t
    ensures Lookup(Fill(t, total, d, day), total, d, today) == total
  {
    FirstTouch(t, total, d, today);
    ReadsAreInvisible(t, total, d, day, total, d, today);
  }

  lemma {:induction false} FillKeepsLookups(s: State, d: Denom, day: int, e: Denom, today: int)
    requires IsTracked(s, e) && day >= 0 && today >= 0
    ensures var t' := Fill(s.issuance, BookTotal(s.balances, d), d, day);
            && SamePast(s.issuance, t', e, today)
            && Lookup(t', BookTotal(s.balances, e), e, today) == Lookup(s.issuance, BookTotal(s.balances, e), e, today)
  {
    var total := BookTotal(s.balances, d);
    forall other, x | x >= 0
      ensures Lookup(Fill(s.issuance, total, d, day), other, e, x) == Lookup(s.issuance, other, e, x)
    {
      FillInvisible(s.issuance, total, d, day, other, e, x);
    }
  }

  lemma {:induction false} FillInvisible(t: Table, total: int, d: Denom, day: int, total': int, e: Denom, x: int)
    requires Snap(e, 0) in t && day >= 0 && x >= 0
    ensures Lookup(Fill(t, total, d, day), total', e, x) == Lookup(t, total', e, x)
    decreases day
  {
    if e == d {
      ReadsAreInvisible(t, total, d, day, total', e, x);
    } else if Snap(d, day) !in t {
      UpdateInvisible(if day <= 0 then t
          else Fill(t, total, d, day - 1), Snap(d, day), Lookup(t, total, d, day), total', e, x);
      if day > 0 {
        FillInvisible(t, total, d, day - 1, total', e, x);
      }
    }
  }

  /** An issuance change adds to today's issuance of its denomination, and to nothing else. */
  lemma {:induction false} ChangeEffect(s: State, d: Denom, delta: int, e: Denom)
    requires Sound(s) && IssuanceChanged(s, d, delta).Ok? && IsTracked(s, e)
    ensures var s' := IssuanceChanged(s, d, delta).value;
            && IsTracked(s', e) && SamePast(s.issuance, s'.issuance, e, Day(s.height))
            && Current(s', e) == Current(s, e) + (if e == d then delta else 0)
  {
    var total, today := BookTotal(s.balances, d), Day(s.height);
    var t, s' := s.issuance, IssuanceChanged(s, d, delta).value;
    var filled := Fill(t, total, d, today);
    FillContents(t, total, d, today, Snap(e, 0));
    FillKeepsLookups(s, d, today, e, today);
    if Snap(d, 0) in t {
      var v := Lookup(t, total, d, today) + delta;
      forall other, x | 0 <= x && (x < today || e != d)
        ensures Lookup(filled[Snap(d, today) := v], other, e, x) == Lookup(filled, other, e, x)
      {
        UpdateInvisible(filled, Snap(d, today), v, other, e, x);
      }
    }
  }

  lemma {:induction false} ChangeSound(s: State, d: Denom, delta: int)
    requires Sound(s) && IssuanceChanged(s, d, delta).Ok?
    ensures Sound(IssuanceChanged(s, d, delta).value) && IsTracked(IssuanceChanged(s, d, delta).value, d)
  {
    BookTotalNonNegative(s.balances, d);
    FillSound(s.issuance, BookTotal(s.balances, d), d, Day(s.height), Day(s.height));
  }

  /** Crediting and changing the issuance by the same amount is an evolution. */
  lemma {:induction false} CreditAndChangeEvolves(s: State, a: Addr, d: Denom, x: int)
    requires Sound(s) && Get(Row(s.balances, a), d) + x >= 0
    requires IssuanceChanged(s.(balances := Credit(s.balances, a, map[d := x])), d, x).Ok?
    ensures var s' := IssuanceChanged(s.(balances := Credit(s.balances, a, map[d := x])), d, x).value;
            && Evolves(s, s') && IsTracked(s', d)
            && forall e :: BookTotal(s'.balances, e) == BookTotal(s.balances, e) + (if e == d then x else 0)
  {
    var mid := s.(balances := Credit(s.balances, a, map[d := x]));
    var s' := IssuanceChanged(mid, d, x).value;
    assert BookNonNegative(mid.balances);
    ChangeSound(mid, d, x);
    forall e
      ensures BookTotal(s'.balances, e) == BookTotal(s.balances, e) + (if e == d then x else 0)
    {
      CreditTotal(s.balances, a, map[d := x], e);
    }
    forall e | IsTracked(s, e)
      ensures Keeps(s, s', e)
    {
      ChangeEffect(mid, d, x, e);
      TotalUnused(s.issuance, BookTotal(s.balances, e), BookTotal(mid.balances, e), e, Day(s.height));
    }
    forall e | !IsTracked(s, e) && IsTracked(s', e)
      ensures Gap(s', e) == 0
    {
      if e == d {
        TouchCounts(mid, d, Day(s.height));
      } else {
        ChangeTracksOwn(mid, d, x, e);
      }
    }
  }

  lemma {:induction false} ChangeTracksOwn(s: State, d: Denom, delta: int, e: Denom)
    requires IssuanceChanged(s, d, delta).Ok? && e != d
    ensures IsTracked(IssuanceChanged(s, d, delta).value, e) <==> IsTracked(s, e)
  {
    FillOnlyOwnRow(s.issuance, BookTotal(s.balances, d), d, Day(s.height), Snap(e, 0));
  }

  /** Without any snapshot every day counts the balances there are. */
  lemma {:induction false} UntrackedLookup(s: State, d: Denom, day: nat)
    requires Sound(s) && !IsTracked(s, d)
    ensures Lookup(s.issuance, BookTotal(s.balances, d), d, day) == BookTotal(s.balances, d)
  {
    assert forall x :: Snap(d, x) !in s.issuance;
    FirstTouch(s.issuance, BookTotal(s.balances, d), d, day);
  }

  /** Tracked or not, recorded issuance moves with balances. */
  lemma {:induction false} EvolvesGap(s: State, s': State, d: Denom)
    requires Sound(s) && Evolves(s, s')
    ensures Gap(s', d) == Gap(s, d)
  {
    if IsTracked(s, d) {
      assert Keeps(s, s', d);
    } else {
      UntrackedLookup(s, d, Day(s.height));
      if !IsTracked(s', d) {
        UntrackedLookup(s', d, Day(s.height));
      }
    }
  }

  lemma {:induction false} EvolvesTransitive(a: State, b: State, c: State)
    requires Evolves(a, b) && Evolves(b, c)
    ensures Evolves(a, c)
  {
    forall d | IsTracked(a, d)
      ensures Keeps(a, c, d)
    {
      assert Keeps(a, b, d) && Keeps(b, c, d);
    }
    forall d | !IsTracked(a, d) && IsTracked(c, d)
      ensures Gap(c, d) == 0
    {
      assert IsTracked(b, d) ==> Keeps(b, c, d);
    }
  }

  // ---------------------------------------------------------------------------
  // Seigniorage

  /** The last day of an epoch, or today while the epoch is not over. */
  function LastDay(height: nat, epoch: nat): nat
  {
    var last := (epoch + 1) * 7 - 1;
    if last > Day(height) then Day(height) else last
  }

  /** A week before the last day, as far as the chain goes back. */
  function FirstDay(height: nat, epoch: nat): nat
  {
    var last := LastDay(height, epoch);
    if last < 7 then 0 else last - 7
  }

  /** What the Luna issuance grew by between the two, never below zero. */
  ghost function Seigniorage(s: State, epoch: nat): nat
  {
    var total := BookTotal(s.balances, LUNA);
    var last := Lookup(s.issuance, total, LUNA, LastDay(s.height, epoch));
    var first := Lookup(s.issuance, total, LUNA, FirstDay(s.height, epoch));
    if last < first then 0 else last - first
  }

  /** The tables answer every lookup of Luna alike. */
  ghost predicate SameLuna(t: Table, t': Table, total: int)
  {
    forall day :: day >= 0 ==> Lookup(t', total, LUNA, day) == Lookup(t, total, LUNA, day)
  }

  lemma {:induction false} ReadsKeepLuna(t: Table, total: int, first: nat, last: nat)
    ensures SameLuna(t, Fill(Fill(t, total, LUNA, first), total, LUNA, last), total)
  {
    var once := Fill(t, total, LUNA, first);
    forall day | day >= 0
      ensures Lookup(Fill(once, total, LUNA, last), total, LUNA, day) == Lookup(t, total, LUNA, day)
    {
      ReadsAreInvisible(t, total, LUNA, first, total, LUNA, day);
      ReadsAreInvisible(once, total, LUNA, last, total, LUNA, day);
    }
  }

  // ---------------------------------------------------------------------------
  // The keeper

  /** What a change of `x` moves in the staking pool. */
  function LunaPart(d: Denom, x: int): int { if d == LUNA then x else 0 }

  class Keeper {
    var height: nat
    var balances: Book
    var issuance: Table

    /** The staking pool's tokens that are not bonded. */
    var notBonded: int

    constructor (height: nat, balances: Book, notBonded: int)
      ensures Value() == State(height, balances, map[]) && this.notBonded == notBonded
    {
      this.height, this.balances, this.issuance, this.notBonded := height, balances, map[], notBonded;
    }

    ghost function Value(): State
      reads this
    {
      State(height, balances, issuance)
    }

    /** Counts a denomination over all accounts. */
    method CountIssuance(d: Denom) returns (total: int)
      ensures total == BookTotal(balances, d)
    {
      total := 0;
      var todo := Column(balances, d);
      while todo != map[]
        invariant total + Total(todo) == BookTotal(balances, d)
        decreases todo.Keys
      {
        var a :| a in todo;
        TotalRemove(todo, a);
        total := total + todo[a];
        todo := todo - {a};
      }
    }

    method GetIssuance(d: Denom, day: int) returns (amount: int)
      modifies this`issuance
      ensures amount == Lookup(old(issuance), BookTotal(balances, d), d, day)
      ensures issuance == Fill(old(issuance), BookTotal(balances, d), d, day)
      decreases day
    {
      if Snap(d, day) in issuance {
        amount := issuance[Snap(d, day)];
      } else {
        if day <= 0 {
          amount := CountIssuance(d);
        } else {
          amount := GetIssuance(d, day - 1);
        }
        issuance := issuance[Snap(d, day) := amount];
      }
    }

    /** `ChangeIssuance`; false when the issuance would fall below zero. */
    method ChangeIssuance(d: Denom, delta: int) returns (ok: bool)
      modifies this`issuance
      ensures ok <==> IssuanceChanged(old(Value()), d, delta).Ok?
      ensures ok ==> Value() == IssuanceChanged(old(Value()), d, delta).value
    {
      var curDay := height / BLOCKS_PER_DAY;
      if Snap(d, 0) !in issuance {
        var _ := GetIssuance(d, curDay);
        return true;
      }
      var current := GetIssuance(d, curDay);
      if current + delta < 0 {
        return false;
      }
      issuance := issuance[Snap(d, curDay) := current + delta];
      return true;
    }

    method Mint(recipient: Addr, d: Denom, amount: int) returns (ok: bool)
      modifies this`issuance, this`balances, this`notBonded
      ensures ok <==> MintCoin(old(Value()), recipient, d, amount).Ok?
      ensures ok ==> Value() == MintCoin(old(Value()), recipient, d, amount).value
      ensures ok ==> notBonded == old(notBonded) + LunaPart(d, amount)
    {
      if amount <= 0 {
        return false;
      }
      balances := Credit(balances, recipient, map[d := amount]);
      if d == LUNA {
        notBonded := notBonded + amount;
      }
      ok := ChangeIssuance(d, amount);
    }

    method Burn(payer: Addr, d: Denom, amount: int) returns (ok: bool)
      modifies this`issuance, this`balances, this`notBonded
      ensures ok <==> BurnCoin(old(Value()), payer, d, amount).Ok?
      ensures ok ==> Value() == BurnCoin(old(Value()), payer, d, amount).value
      ensures ok ==> notBonded == old(notBonded) - LunaPart(d, amount)
    {
      if amount <= 0 || Get(Row(balances, payer), d) < amount {
        return false;
      }
      balances := Credit(balances, payer, map[d := -amount]);
      if d == LUNA {
        notBonded := notBonded - amount;
      }
      ok := ChangeIssuance(d, -amount);
    }

    /** Growth of the Luna supply over an epoch, as far as it has come, never below zero. */
    method PeekEpochSeigniorage(epoch: nat) returns (seigniorage: int)
      modifies this`issuance
      ensures seigniorage == Seigniorage(old(Value()), epoch)
      ensures var total := BookTotal(balances, LUNA);
              issuance == Fill(Fill(old(issuance), total, LUNA, FirstDay(height, epoch)), total, LUNA,
                  LastDay(height, epoch))
    {
      var daysPerEpoch := BLOCKS_PER_EPOCH / BLOCKS_PER_DAY;
      var epochLastDay := (epoch + 1) * daysPerEpoch - 1;
      var today := height / BLOCKS_PER_DAY;
      if epochLastDay > today {
        epochLastDay := today;
      }
      var prevEpochLastDay := epochLastDay - daysPerEpoch;
      if prevEpochLastDay < 0 {
        prevEpochLastDay := 0;
      }
      ghost var total := BookTotal(balances, LUNA);
      ReadsAreInvisible(issuance, total, LUNA, prevEpochLastDay, total, LUNA, epochLastDay);
      var prevEpochIssuance := GetIssuance(LUNA, prevEpochLastDay);
      var epochIssuance := GetIssuance(LUNA, epochLastDay);
      seigniorage := epochIssuance - prevEpochIssuance;
      if seigniorage < 0 {
        seigniorage := 0;
      }
    }
  }
}
