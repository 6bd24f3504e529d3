/** Store keys of x/budget/keeper_keys.go, and what the range and prefix scans over them return. */
module BudgetKeys {
  import opened Text

  const PREFIX_PROGRAM: string := "program"
  const PREFIX_VOTE: string := "vote"
  const PREFIX_QUEUE: string := "candidate-queue"
  const PREFIX_CLAIM: string := "claim"
  const NEXT_PROGRAM_ID: string := "new-program-id"

  /** Heights are signed 64-bit, so twenty digits always suffice. */
  const WIDTH: nat := 20

  function KeyProgram(id: nat): string { PREFIX_PROGRAM + [COLON] + Digits(id) }

  function KeyVote(id: nat, voter: string): string { PREFIX_VOTE + [COLON] + (Digits(id) + [COLON] + voter) }

  function KeyClaim(recipient: string): string { PREFIX_CLAIM + [COLON] + recipient }

  function PrefixQueueEndBlock(endBlock: nat): string { PREFIX_QUEUE + [COLON] + Padded(endBlock, WIDTH) }

  function KeyCandidate(endBlock: nat, id: nat): string { PrefixQueueEndBlock(endBlock) + ([COLON] + Digits(id)) }

  /** A height the chain can have: a non-negative signed 64-bit number. */
  predicate IsHeight(h: int) { 0 <= h < 0x8000_0000_0000_0000 }

  /** `sdk.PrefixEndBytes`: the first string after all those that start with `p`, for a prefix whose last byte
      is not 0xFF. */
  function PrefixEnd(p: string): string
    requires p != "" && p[|p| - 1] < 255 as char
  {
    p[..|p| - 1] + [p[|p| - 1] + 1 as char]
  }

  /** The half-open range an iterator covers. */
  predicate InRange(s: string, start: string, end: string)
  {
    !LexLess(s, start) && LexLess(s, end)
  }

  // ---------------------------------------------------------------------------
  // Prefixes are ranges

  lemma {:induction false} RangeOfPrefix(q: string, c: char, s: string)
    requires c < 255 as char
    ensures InRange(s, q + [c], q + [c + 1 as char]) <==> IsPrefix(q + [c], s)
    decreases |q|
  {
    var p, end := q + [c], q + [c + 1 as char];
    if q == "" {
      assert p == [c] && end == [c + 1 as char] && p[1..] == "" && end[1..] == "";
      if s != "" {
        assert s[..1] == [s[0]];
        assert !LexLess(s[1..], "");
      }
    } else if s != "" {
      assert p[1..] == q[1..] + [c] && end[1..] == q[1..] + [c + 1 as char];
      RangeOfPrefix(q[1..], c, s[1..]);
      assert IsPrefix(p, s) <==> s[0] == q[0] && IsPrefix(p[1..], s[1..]) by {
        PrefixStep(p, s);
      }
    }
  }

  lemma {:induction false} PrefixStep(p: string, s: string)
    requires p != "" && s != ""
    ensures IsPrefix(p, s) <==> p[0] == s[0] && IsPrefix(p[1..], s[1..])
  {
    if |p| <= |s| {
      assert s[..|p|] == [s[0]] + s[1..][..|p| - 1] && p == [p[0]] + p[1..];
      assert s[1..][..|p| - 1] == s[..|p|][1..];
    }
  }

  /** Scanning from a prefix to its end visits exactly the keys that start with it. */
  lemma {:induction false} PrefixScan(p: string, s: string)
    requires p != "" && p[|p| - 1] < 255 as char
    ensures InRange(s, p, PrefixEnd(p)) <==> IsPrefix(p, s)
  {
    RangeOfPrefix(p[..|p| - 1], p[|p| - 1], s);
    assert p == p[..|p| - 1] + [p[|p| - 1]];
  }

  lemma {:induction false} PrefixNotLess(p: string, s: string)
    requires IsPrefix(p, s)
    ensures !LexLess(s, p)
    decreases |p|
  {
    if p != "" {
      PrefixStep(p, s);
      PrefixNotLess(p[1..], s[1..]);
    }
  }

  lemma {:induction false} LexTransitive(a: string, b: string, c: string)
    requires LexLess(a, b) && LexLess(b, c)
    ensures LexLess(a, c)
    decreases |a|
  {
    if a != "" && a[0] == b[0] == c[0] {
      LexTransitive(a[1..], b[1..], c[1..]);
    }
  }

  /** What follows two different strings of equal length does not matter to their order. */
  lemma {:induction false} TailsDoNotMatter(a: string, t: string, b: string)
    requires |a| == |b|
    ensures LexLess(a + t, b) <==> LexLess(a, b)
    decreases |a|
  {
    if a == "" {
    } else {
      assert (a + t)[1..] == a[1..] + t;
      TailsDoNotMatter(a[1..], t, b[1..]);
    }
  }

  // ---------------------------------------------------------------------------
  // The candidate queue

  lemma {:induction false} HeightFits(h: nat)
    requires IsHeight(h)
    ensures h < Pow10(WIDTH)
  {
    Pow10Of18();
    assert Pow10(20) == 100 * Pow10(18);
  }

  /** Twenty digits, with anything after them, come before the end of a block's prefix exactly when they spell
      an earlier block or that one. */
  lemma {:induction false} PaddedBeforeEnd(e: nat, h: nat, tail: string)
    requires IsHeight(e) && IsHeight(h)
    ensures LexLess(Padded(e, WIDTH) + tail, PrefixEnd(Padded(h, WIDTH))) <==> e <= h
  {
    HeightFits(e);
    HeightFits(h);
    PaddedWidth(e, WIDTH);
    PaddedWidth(h, WIDTH);
    PaddedOrder(e, h, WIDTH);
    var x, y := Padded(e, WIDTH), Padded(h, WIDTH);
    TailsDoNotMatter(x, tail, PrefixEnd(y));
    BeforeEnd(x, y);
  }

  /** Among strings of equal length, those before the end of a prefix are those before it and the prefix itself. */
  lemma {:induction false} BeforeEnd(x: string, y: string)
    requires |x| == |y| > 0 && y[|y| - 1] < 255 as char
    ensures LexLess(x, PrefixEnd(y)) <==> LexLess(x, y) || x == y
  {
    PrefixScan(y, x);
    PrefixScan(y, y);
    assert IsPrefix(y, x) <==> x == y;
    if LexLess(x, y) {
      LexTransitive(x, y, PrefixEnd(y));
    }
  }

  /** The range scanned at height `h` holds exactly the candidates whose voting ends at `h` or before. */
  lemma {:induction false} CandidateInScan(endBlock: nat, id: nat, h: nat)
    requires IsHeight(endBlock) && IsHeight(h)
    ensures InRange(KeyCandidate(endBlock, id), PREFIX_QUEUE, PrefixEnd(PrefixQueueEndBlock(h))) <==> endBlock <= h
  {
    var front := PREFIX_QUEUE + [COLON];
    var x, y, tail := Padded(endBlock, WIDTH), Padded(h, WIDTH), [COLON] + Digits(id);
    var key, end := KeyCandidate(endBlock, id), PrefixEnd(PrefixQueueEndBlock(h));
    assert key == front + (x + tail);
    assert end == front + PrefixEnd(y);
    LexCommonFront(front, x + tail, PrefixEnd(y));
    PaddedBeforeEnd(endBlock, h, tail);
    assert key[..|PREFIX_QUEUE|] == PREFIX_QUEUE;
    PrefixNotLess(PREFIX_QUEUE, key);
  }

  datatype Candidate = Candidate(endBlock: nat, id: nat)

  /** `CandQueueIterateExpired` over a queue: nothing due is missed, nothing early is visited. */
  lemma {:induction false} ExpiredScan(queue: set<Candidate>, h: nat)
    requires IsHeight(h) && forall c :: c in queue ==> IsHeight(c.endBlock)
    ensures (set c | c in queue
            && InRange(KeyCandidate(c.endBlock, c.id), PREFIX_QUEUE, PrefixEnd(PrefixQueueEndBlock(h))))
         == (set c | c in queue && c.endBlock <= h)
  {
    forall c | c in queue
      ensures InRange(KeyCandidate(c.endBlock, c.id), PREFIX_QUEUE, PrefixEnd(PrefixQueueEndBlock(h)))
         <==> c.endBlock <= h
    {
      CandidateInScan(c.endBlock, c.id, h);
    }
  }

  /** No key of another kind falls into the range. */
  lemma {:induction false} OtherKeysNotInScan(id: nat, text: string, h: nat)
    ensures var end := PrefixEnd(PrefixQueueEndBlock(h));
            && !InRange(KeyProgram(id), PREFIX_QUEUE, end)
            && !InRange(KeyVote(id, text), PREFIX_QUEUE, end)
            && !InRange(KeyClaim(text), PREFIX_QUEUE, end)
            && !InRange(NEXT_PROGRAM_ID, PREFIX_QUEUE, end)
  {
    var end := PrefixEnd(PrefixQueueEndBlock(h));
    assert end[0] == 'c' && end[1] == 'a';
    assert KeyClaim(text)[0] == 'c' && KeyClaim(text)[1] == 'l';
    assert KeyProgram(id)[0] == 'p' && KeyVote(id, text)[0] == 'v' && NEXT_PROGRAM_ID[0] == 'n';
    assert !LexLess(KeyClaim(text)[1..], end[1..]) by {
      assert end[1..][0] == 'a' && KeyClaim(text)[1..][0] == 'l';
    }
    assert !LexLess(KeyProgram(id), end) && !LexLess(KeyVote(id, text), end) && !LexLess(NEXT_PROGRAM_ID, end);
  }

  lemma {:induction false} KeyCandidateRest(c: Candidate)
    ensures var key := KeyCandidate(c.endBlock, c.id);
            |key| > |PREFIX_QUEUE| && key[|PREFIX_QUEUE| + 1..] == Padded(c.endBlock, WIDTH) + [COLON] + Digits(c.id)
  {
    var front, rest := PREFIX_QUEUE + [COLON], Padded(c.endBlock, WIDTH) + [COLON] + Digits(c.id);
    assert KeyCandidate(c.endBlock, c.id) == front + rest;
    assert (front + rest)[|front|..] == rest;
  }

  /** Each queue entry has a key of its own. */
  lemma {:induction false} KeyCandidateInjective(a: Candidate, b: Candidate)
    requires IsHeight(a.endBlock) && IsHeight(b.endBlock)
    requires KeyCandidate(a.endBlock, a.id) == KeyCandidate(b.endBlock, b.id)
    ensures a == b
  {
    HeightFits(a.endBlock);
    HeightFits(b.endBlock);
    KeyCandidateRest(a);
    KeyCandidateRest(b);
    FirstColonSplits(Padded(a.endBlock, WIDTH), Digits(a.id), Padded(b.endBlock, WIDTH), Digits(b.id));
    PaddedOrder(a.endBlock, b.endBlock, WIDTH);
    ParseDigits(a.id);
    ParseDigits(b.id);
  }

  // ---------------------------------------------------------------------------
  // Votes

  lemma {:induction false} KeyVoteRest(id: nat, voter: string)
    ensures KeyVote(id, voter)[|PREFIX_VOTE| + 1..] == Digits(id) + [COLON] + voter
    ensures |KeyVote(id, voter)| == |PREFIX_VOTE| + 1 + |Digits(id)| + 1 + |voter|
  {
  }

  /** The prefix `vote:a:` matches the votes of program `a` and of no program whose number extends its digits. */
  lemma {:induction false} VotePrefixMatches(a: nat, b: nat, voter: string)
    ensures IsPrefix(KeyVote(a, ""), KeyVote(b, voter)) <==> a == b
  {
    var p, s := KeyVote(a, ""), KeyVote(b, voter);
    KeyVoteRest(a, "");
    KeyVoteRest(b, voter);
    if IsPrefix(p, s) {
      var rest := s[|p|..];
      assert s == p + rest;
      var front := PREFIX_VOTE + [COLON];
      assert p + rest == front + (Digits(a) + [COLON] + rest);
      assert (p + rest)[|front|..] == Digits(a) + [COLON] + rest;
      FirstColonSplits(Digits(a), rest, Digits(b), voter);
      ParseDigits(a);
      ParseDigits(b);
    }
    if a == b {
      assert s == p + voter;
      assert s[..|p|] == p;
    }
  }

  datatype Ballot = Ballot(id: nat, voter: string)

  /** `IterateVotesWithPrefix` for a program visits exactly its votes. */
  lemma {:induction false} VoteScan(votes: set<Ballot>, id: nat)
    ensures (set v | v in votes && InRange(KeyVote(v.id, v.voter), KeyVote(id, ""), PrefixEnd(KeyVote(id, ""))))
         == (set v | v in votes && v.id == id)
  {
    var p := KeyVote(id, "");
    assert p[|p| - 1] == COLON;
    forall v | v in votes
      ensures InRange(KeyVote(v.id, v.voter), p, PrefixEnd(p)) <==> v.id == id
    {
      PrefixScan(p, KeyVote(v.id, v.voter));
      VotePrefixMatches(id, v.id, v.voter);
    }
  }

  lemma {:induction false} KeyVoteInjective(a: Ballot, b: Ballot)
    requires KeyVote(a.id, a.voter) == KeyVote(b.id, b.voter)
    ensures a == b
  {
    KeyVoteRest(a.id, a.voter);
    KeyVoteRest(b.id, b.voter);
    FirstColonSplits(Digits(a.id), a.voter, Digits(b.id), b.voter);
    ParseDigits(a.id);
    ParseDigits(b.id);
  }
}
