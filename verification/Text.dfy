/** Text facts shared by the signing input and by the env-file format. */
module Text {

  predicate IsDigit(c: char) { '0' <= c <= '9' }

  function Digit(n: nat): (c: char)
    requires n < 10
    ensures IsDigit(c) && DigitValue(c) == n
  {
    ['0', '1', '2', '3', '4', '5', '6', '7', '8', '9'][n]
  }

  function DigitValue(c: char): nat
    requires IsDigit(c)
  {
    (c as int) - ('0' as int)
  }

  /** Decimal text of a natural number, as `String(n)` prints it. */
  function Decimal(n: nat): (s: string)
    ensures |s| > 0 && AllDigits(s)
  {
    if n < 10 then [Digit(n)] else Decimal(n / 10) + [Digit(n % 10)]
  }

  predicate AllDigits(s: string) { forall i | 0 <= i < |s| :: IsDigit(s[i]) }

  /** Value of a digit string, as `Number(s)` reads it. */
  function DecimalValue(s: string): nat
    requires AllDigits(s)
  {
    if s == "" then 0 else 10 * DecimalValue(s[..|s| - 1]) + DigitValue(s[|s| - 1])
  }

  /** Reading a printed number gives the number back. */
  lemma {:induction false} DecimalRoundTrip(n: nat)
    ensures DecimalValue(Decimal(n)) == n
  {
    if n < 10 {
      assert Decimal(n)[..0] == "";
    } else {
      DecimalRoundTrip(n / 10);
      assert Decimal(n)[..|Decimal(n)| - 1] == Decimal(n / 10);
    }
  }

  /** Equal texts cut at the first occurrence of a separator agree on both sides. */
  lemma CutFirst(a: string, s: string, b: string, t: string, c: char)
    requires c !in a && c !in b
    requires a + [c] + s == b + [c] + t
    ensures a == b && s == t
  {
    var x, y := a + [c] + s, b + [c] + t;
    assert x[|a|] == c && y[|b|] == c;
    assert forall i | 0 <= i < |a| :: x[i] == a[i] && x[i] != c;
    assert forall i | 0 <= i < |b| :: y[i] == b[i] && y[i] != c;
    assert |a| == |b|;
    assert a == x[..|a|] && b == y[..|b|];
    assert s == x[|a| + 1..] && t == y[|b| + 1..];
  }

  /** Equal texts cut at the last occurrence of a separator agree on both sides. */
  lemma CutLast(s: string, a: string, t: string, b: string, c: char)
    requires c !in a && c !in b
    requires s + [c] + a == t + [c] + b
    ensures s == t && a == b
  {
    var x, y := s + [c] + a, t + [c] + b;
    assert x[|s|] == c && y[|t|] == c;
    assert forall i | |s| < i < |x| :: x[i] == a[i - |s| - 1] && x[i] != c;
    assert forall i | |t| < i < |y| :: y[i] == b[i - |t| - 1] && y[i] != c;
    assert |s| == |t|;
    assert s == x[..|s|] && t == y[..|t|];
    assert a == x[|s| + 1..] && b == y[|t| + 1..];
  }

  predicate DigitFollows(s: string) { s != "" && IsDigit(s[0]) }

  /** A run of digits ends where the digits end, so its extent is determined. */
  lemma CutDigits(a: string, s: string, b: string, t: string)
    requires AllDigits(a) && AllDigits(b) && !DigitFollows(s) && !DigitFollows(t)
    requires a + s == b + t
    ensures a == b && s == t
  {
    var x, y := a + s, b + t;
    assert forall i | 0 <= i < |a| :: x[i] == a[i] && IsDigit(x[i]);
    assert forall i | 0 <= i < |b| :: y[i] == b[i] && IsDigit(y[i]);
    assert s != "" ==> x[|a|] == s[0];
    assert t != "" ==> y[|b|] == t[0];
    assert |a| == |b|;
    assert a == x[..|a|] && b == y[..|b|];
    assert s == x[|a|..] && t == y[|b|..];
  }

  /** One of two texts begins with the other. */
  predicate Nested(a: string, b: string) { a <= b || b <= a }

  lemma CommonExtension(a: string, s: string, b: string, t: string)
    requires a + s == b + t
    ensures Nested(a, b)
  {
    var x := a + s;
    assert a == x[..|a|] && b == x[..|b|];
  }

  /** What to append so that both texts become the longer one. */
  lemma Extend(a: string, b: string) returns (s: string, t: string)
    requires Nested(a, b)
    ensures a + s == b + t
  {
    if a <= b { s, t := b[|a|..], ""; } else { s, t := "", a[|b|..]; }
  }

  function Newlines(s: string): nat {
    if s == "" then 0 else (if s[0] == '\n' then 1 else 0) + Newlines(s[1..])
  }

  lemma {:induction false} NewlinesJoin(a: string, b: string)
    ensures Newlines(a + b) == Newlines(a) + Newlines(b)
  {
    if a == "" {
      assert a + b == b;
    } else {
      assert (a + b)[1..] == a[1..] + b;
      NewlinesJoin(a[1..], b);
    }
  }

  lemma {:induction false} NoNewlines(s: string)
    ensures Newlines(s) == 0 <==> '\n' !in s
  {
    if s != "" { NoNewlines(s[1..]); }
  }

  /** A text of several lines, cut at its first newline. */
  lemma CutAtNewline(s: string) returns (a: string, b: string)
    requires '\n' in s
    ensures s == a + ['\n'] + b && |a| < |s|
  {
    var i :| 0 <= i < |s| && s[i] == '\n';
    a, b := s[..i], s[i + 1..];
  }
}
