/** Decimal text of integers, as a template string prints them, and the fact that such text can be
    read back from the front of a longer string when no digit follows it. */
module Decimal {

  predicate IsDigit(c: char) {
    '0' <= c <= '9'
  }

  predicate AllDigits(s: string) {
    forall i :: 0 <= i < |s| ==> IsDigit(s[i])
  }

  function DigitChar(d: nat): (c: char)
    requires d < 10
    ensures IsDigit(c) && DigitValue(c) == d
  {
    ('0' as int + d) as char
  }

  function DigitValue(c: char): nat
    requires IsDigit(c)
  {
    c as int - '0' as int
  }

  function Digits(n: nat): (s: string)
    ensures |s| > 0 && AllDigits(s)
  {
    if n < 10 then [DigitChar(n)] else Digits(n / 10) + [DigitChar(n % 10)]
  }

  function Print(n: int): string {
    if n < 0 then "-" + Digits(-n) else Digits(n)
  }

  /** The number a string of digits denotes. */
  function Value(s: string): nat
    requires AllDigits(s)
  {
    if s == [] then 0 else 10 * Value(s[..|s| - 1]) + DigitValue(s[|s| - 1])
  }

  lemma {:induction false} ValueOfDigits(n: nat)
    ensures Value(Digits(n)) == n
  {
    if n >= 10 {
      ValueOfDigits(n / 10);
      var s := Digits(n);
      assert s[..|s| - 1] == Digits(n / 10);
    }
  }

  /** True of text that cannot prolong a run of digits. */
  predicate StopsDigits(s: string) {
    s == [] || !IsDigit(s[0])
  }

  lemma DigitRunUnique(s: string, u: string, t: string, v: string)
    requires AllDigits(s) && AllDigits(t) && StopsDigits(u) && StopsDigits(v)
    requires s + u == t + v
    ensures s == t && u == v
  {
    var w := s + u;
    assert forall i :: 0 <= i < |s| ==> w[i] == s[i];
    assert forall i :: 0 <= i < |t| ==> w[i] == t[i];
    assert u != [] ==> w[|s|] == u[0];
    assert v != [] ==> w[|t|] == v[0];
    assert |s| == |t|;
    assert s == (s + u)[..|s|] == (t + v)[..|t|] == t;
    assert u == (s + u)[|s|..] == (t + v)[|t|..] == v;
  }

  /** Printed integers form a prefix code once no digit follows: both the number and the rest of the
      text can be told apart. Negative numbers are included. */
  lemma PrintIsPrefixCode(a: int, u: string, b: int, v: string)
    requires StopsDigits(u) && StopsDigits(v)
    requires Print(a) + u == Print(b) + v
    ensures a == b && u == v
  {
    var w := Print(a) + u;
    assert w[0] == Print(a)[0] && w[0] == Print(b)[0];
    SignAndMagnitude(a, u);
    SignAndMagnitude(b, v);
    var s := Digits(if a < 0 then -a else a);
    var t := Digits(if b < 0 then -b else b);
    DigitRunUnique(s, u, t, v);
    ValueOfDigits(if a < 0 then -a else a);
    ValueOfDigits(if b < 0 then -b else b);
  }

  lemma SignAndMagnitude(a: int, u: string)
    ensures var w := Print(a) + u;
            && |w| > 0
            && (a < 0 <==> w[0] == '-')
            && (if a < 0 then w[1..] == Digits(-a) + u else w == Digits(a) + u)
  {
    if a < 0 {
      assert (Print(a) + u)[1..] == Digits(-a) + u;
    }
  }

  lemma NumeralHasNoDash(n: nat)
    ensures '-' !in Print(n)
  {
    assert AllDigits(Print(n));
  }

  lemma CancelPrefix(p: string, s: string, t: string)
    requires p + s == p + t
    ensures s == t
  {
    assert s == (p + s)[|p|..] == (p + t)[|p|..] == t;
  }
}
