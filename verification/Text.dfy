/** Decimal rendering of numbers and the byte order of strings, as store keys and hash preimages use them. */
module Text {
  import Dec

  const COLON: char := ':'

  function DigitChar(d: nat): char
    requires d < 10
  {
    '0' + d as char
  }

  predicate IsDigit(c: char) { '0' <= c <= '9' }

  function DigitValue(c: char): nat
    requires IsDigit(c)
  {
    (c - '0') as nat
  }

  predicate AllDigits(s: string) { forall i :: 0 <= i < |s| ==> IsDigit(s[i]) }

  predicate NoColon(s: string) { forall i :: 0 <= i < |s| ==> s[i] != COLON }

  /** `%d` of a natural number. */
  function Digits(n: nat): (s: string)
    ensures |s| > 0 && AllDigits(s)
  {
    if n < 10 then [DigitChar(n)] else Digits(n / 10) + [DigitChar(n % 10)]
  }

  function Zeros(k: nat): (s: string)
    ensures |s| == k && forall i :: 0 <= i < k ==> s[i] == '0'
  {
    seq(k, _ => '0')
  }

  /** `%0wd` of a natural number. */
  function Padded(n: nat, w: nat): (s: string)
    ensures AllDigits(s) && |s| >= w
  {
    var s := Digits(n);
    if |s| < w then Zeros(w - |s|) + s else s
  }

  /** The number a digit string spells. */
  function Parse(s: string): nat
    requires AllDigits(s)
  {
    if s == "" then 0 else 10 * Parse(s[..|s| - 1]) + DigitValue(s[|s| - 1])
  }

  function Pow10(k: nat): (p: nat)
    ensures p > 0
  {
    if k == 0 then 1 else 10 * Pow10(k - 1)
  }

  lemma {:induction false} ParseDigits(n: nat)
    ensures Parse(Digits(n)) == n
  {
    var s := Digits(n);
    if n >= 10 {
      ParseDigits(n / 10);
      assert s[..|s| - 1] == Digits(n / 10);
    } else {
      assert s[..|s| - 1] == "";
    }
  }

  lemma {:induction false} ParseZeros(k: nat, s: string)
    requires AllDigits(s)
    ensures Parse(Zeros(k) + s) == Parse(s)
    decreases |s| + k
  {
    var t := Zeros(k) + s;
    if s != "" {
      assert t[..|t| - 1] == Zeros(k) + s[..|s| - 1];
      ParseZeros(k, s[..|s| - 1]);
    } else if k > 0 {
      assert t[..|t| - 1] == Zeros(k - 1) + s;
      ParseZeros(k - 1, s);
    }
  }

  lemma {:induction false} ParsePadded(n: nat, w: nat)
    ensures Parse(Padded(n, w)) == n
  {
    ParseDigits(n);
    var s := Digits(n);
    if |s| < w {
      ParseZeros(w - |s|, s);
      assert Padded(n, w) == Zeros(w - |s|) + s;
    } else {
      assert Padded(n, w) == s;
    }
  }

  /** A number below 10^w fills exactly `w` places. */
  lemma {:induction false} DigitsFit(n: nat, w: nat)
    requires w > 0 && n < Pow10(w)
    ensures |Digits(n)| <= w
  {
    if n >= 10 {
      DigitsFit(n / 10, w - 1);
    }
  }

  lemma {:induction false} PaddedWidth(n: nat, w: nat)
    requires w > 0 && n < Pow10(w)
    ensures |Padded(n, w)| == w
  {
    DigitsFit(n, w);
  }

  // ---------------------------------------------------------------------------
  // Byte order

  predicate LexLess(a: string, b: string)
  {
    if b == "" then false
    else if a == "" then true
    else a[0] < b[0] || (a[0] == b[0] && LexLess(a[1..], b[1..]))
  }

  predicate IsPrefix(p: string, s: string)
  {
    |p| <= |s| && s[..|p|] == p
  }

  /** Strings with a common front compare as their rests do. */
  lemma {:induction false} LexCommonFront(p: string, a: string, b: string)
    ensures LexLess(p + a, p + b) <==> LexLess(a, b)
    decreases |p|
  {
    if p == "" {
      assert p + a == a && p + b == b;
    } else {
      assert (p + a)[1..] == p[1..] + a && (p + b)[1..] == p[1..] + b;
      LexCommonFront(p[1..], a, b);
    }
  }

  lemma {:induction false} ParseBound(s: string)
    requires AllDigits(s)
    ensures Parse(s) < Pow10(|s|)
  {
    if s != "" {
      ParseBound(s[..|s| - 1]);
    }
  }

  /** The value of a digit string in terms of its first digit. */
  lemma {:induction false} ParseFirst(s: string)
    requires AllDigits(s) && s != ""
    ensures AllDigits(s[1..])
    ensures Parse(s) == DigitValue(s[0]) * Pow10(|s| - 1) + Parse(s[1..])
  {
    if |s| > 1 {
      var front := s[..|s| - 1];
      ParseFirst(front);
      assert s[1..][..|s| - 2] == front[1..];
      assert Pow10(|s| - 1) == 10 * Pow10(|s| - 2);
      TenTimes(DigitValue(s[0]), Pow10(|s| - 2));
    }
  }

  lemma {:induction false} TenTimes(d: nat, p: nat)
    ensures 10 * (d * p) == d * (10 * p)
  {
  }

  lemma {:induction false} LeadingDigitDecides(x: nat, u: nat, y: nat, v: nat, p: nat)
    requires u < p && v < p
    ensures x * p + u < y * p + v <==> x < y || (x == y && u < v)
    ensures x * p + u == y * p + v <==> x == y && u == v
  {
    if x < y {
      WholeStep(x, y, p);
    } else if y < x {
      WholeStep(y, x, p);
    }
  }

  lemma {:induction false} WholeStep(x: nat, y: nat, p: nat)
    requires x < y
    ensures x * p + p <= y * p
    decreases y
  {
    if y > x + 1 {
      WholeStep(x, y - 1, p);
    }
    assert y * p == (y - 1) * p + p;
  }

  /** Digit strings of equal length are ordered by value and only by value. */
  lemma {:induction false} LexMatchesValue(a: string, b: string)
    requires AllDigits(a) && AllDigits(b) && |a| == |b|
    ensures LexLess(a, b) <==> Parse(a) < Parse(b)
    ensures a == b <==> Parse(a) == Parse(b)
    decreases |a|
  {
    if a != "" {
      ParseFirst(a);
      ParseFirst(b);
      LexMatchesValue(a[1..], b[1..]);
      ParseBound(a[1..]);
      ParseBound(b[1..]);
      LeadingDigitDecides(DigitValue(a[0]), Parse(a[1..]), DigitValue(b[0]), Parse(b[1..]), Pow10(|a| - 1));
      assert a == b <==> a[0] == b[0] && a[1..] == b[1..] by {
        assert a == [a[0]] + a[1..] && b == [b[0]] + b[1..];
      }
    }
  }

  lemma {:induction false} PaddedOrder(m: nat, n: nat, w: nat)
    requires w > 0 && m < Pow10(w) && n < Pow10(w)
    ensures LexLess(Padded(m, w), Padded(n, w)) <==> m < n
    ensures Padded(m, w) == Padded(n, w) <==> m == n
  {
    PaddedWidth(m, w);
    PaddedWidth(n, w);
    ParsePadded(m, w);
    ParsePadded(n, w);
    LexMatchesValue(Padded(m, w), Padded(n, w));
  }

  // ---------------------------------------------------------------------------
  // Fields separated by colons

  /** The last colon splits a string in one way only. */
  lemma {:induction false} LastColonSplits(a: string, x: string, b: string, y: string)
    requires NoColon(x) && NoColon(y)
    requires a + [COLON] + x == b + [COLON] + y
    ensures a == b && x == y
    decreases |x|
  {
    var s, t := a + [COLON] + x, b + [COLON] + y;
    assert s[|s| - 1] == (if x == "" then COLON else x[|x| - 1]);
    assert t[|t| - 1] == (if y == "" then COLON else y[|y| - 1]);
    if x == "" {
      assert s[..|s| - 1] == a && t[..|t| - 1] == b;
    } else {
      var u, v := x[..|x| - 1], y[..|y| - 1];
      assert s[..|s| - 1] == a + [COLON] + u && t[..|t| - 1] == b + [COLON] + v;
      LastColonSplits(a, u, b, v);
      assert x == u + [x[|x| - 1]] && y == v + [y[|y| - 1]];
    }
  }

  /** The first colon splits a string in one way only. */
  lemma {:induction false} FirstColonSplits(a: string, x: string, b: string, y: string)
    requires NoColon(a) && NoColon(b)
    requires a + [COLON] + x == b + [COLON] + y
    ensures a == b && x == y
    decreases |a|
  {
    var s, t := a + [COLON] + x, b + [COLON] + y;
    assert s[0] == (if a == "" then COLON else a[0]);
    assert t[0] == (if b == "" then COLON else b[0]);
    if a == "" {
      assert s[1..] == x && t[1..] == y;
    } else {
      assert s[1..] == a[1..] + [COLON] + x && t[1..] == b[1..] + [COLON] + y;
      FirstColonSplits(a[1..], x, b[1..], y);
      assert a == [a[0]] + a[1..] && b == [b[0]] + b[1..];
    }
  }

  // ---------------------------------------------------------------------------
  // `sdk.Dec.String`

  function DecString(d: int): (s: string)
    ensures NoColon(s) && |s| > 18
  {
    if d < 0 then "-" + UnsignedDecString(-d) else UnsignedDecString(d)
  }

  function UnsignedDecString(d: nat): (s: string)
    ensures NoColon(s) && |s| > 18 && s[0] != '-'
  {
    Digits(d / Dec.ONE) + "." + Padded(d % Dec.ONE, 18)
  }

  lemma {:induction false} Pow10Of18()
    ensures Pow10(18) == Dec.ONE
  {
    assert Pow10(9) == 1_000_000_000;
  }

  /** Texts of a variable part, a point and `w` more characters agree only if both parts do. */
  lemma {:induction false} PointSplits(p: string, x: string, q: string, y: string, w: nat)
    requires |x| == w && |y| == w && p + "." + x == q + "." + y
    ensures p == q && x == y
  {
    var s, t := p + "." + x, q + "." + y;
    assert s[|s| - w..] == x && t[|t| - w..] == y;
    assert s[..|s| - w - 1] == p && t[..|t| - w - 1] == q;
  }

  lemma {:induction false} UnsignedDecStringInjective(a: nat, b: nat)
    requires UnsignedDecString(a) == UnsignedDecString(b)
    ensures a == b
  {
    Pow10Of18();
    PaddedWidth(a % Dec.ONE, 18);
    PaddedWidth(b % Dec.ONE, 18);
    PointSplits(Digits(a / Dec.ONE), Padded(a % Dec.ONE, 18), Digits(b / Dec.ONE), Padded(b % Dec.ONE, 18), 18);
    ParsePadded(a % Dec.ONE, 18);
    ParsePadded(b % Dec.ONE, 18);
    ParseDigits(a / Dec.ONE);
    ParseDigits(b / Dec.ONE);
  }

  /** Different decimals print differently. */
  lemma {:induction false} DecStringInjective(a: int, b: int)
    requires DecString(a) == DecString(b)
    ensures a == b
  {
    assert (a < 0) == (DecString(a)[0] == '-') && (b < 0) == (DecString(b)[0] == '-');
    if a < 0 {
      assert DecString(a)[1..] == UnsignedDecString(-a) && DecString(b)[1..] == UnsignedDecString(-b);
      UnsignedDecStringInjective(-a, -b);
    } else {
      UnsignedDecStringInjective(a, b);
    }
  }
}
