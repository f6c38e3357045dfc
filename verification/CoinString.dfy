/** Splitting a coin such as "1500ulum" the way the consumer does: parse the longest number at the
    front, print that number again, and take what is left after as many characters.

    This goes wrong when the denomination prolongs the numeral, which RoundTripExact makes precise. Values
    are exact here: a numeral whose value is not an integer has no result. */
module CoinString {
  import opened Decimal
  import opened Options

  /** Integers up to this size are exact and printed in full. */
  const MAX_SAFE_INTEGER: int := 0x1F_FFFF_FFFF_FFFF

  /** Scaled stands for mantissa * 10^exponent, before rounding. */
  datatype Number = NaN | Infinite(negative: bool) | Scaled(negative: bool, mantissa: nat, exponent: int)

  /** An integer amount, or not a number at all. */
  datatype Amount = NotANumber | Unbounded(negative: bool) | Whole(value: int)

  datatype Coin = Coin(amount: Amount, denom: string)

  predicate IsSpace(c: char) {
    || c == ' ' || c == '\t' || c == '\n' || c == '\r'
    || c == '\U{000B}' || c == '\U{000C}' || c == '\U{00A0}' || c == '\U{FEFF}'
  }

  function TrimStart(s: string): string {
    if s != [] && IsSpace(s[0]) then TrimStart(s[1..]) else s
  }

  /** How many digits s starts with. */
  function DigitRun(s: string): (n: nat)
    ensures n <= |s| && AllDigits(s[..n]) && StopsDigits(s[n..])
  {
    if s != [] && IsDigit(s[0]) then
      var n := DigitRun(s[1..]);
      assert s[..n + 1] == [s[0]] + s[1..][..n] && s[n + 1..] == s[1..][n..];
      n + 1
    else 0
  }

  /** The exponent s starts with, 0 when it does not start with one. */
  function Exponent(s: string): int {
    if s == [] || (s[0] != 'e' && s[0] != 'E') then 0
    else
      var signed := |s| > 1 && (s[1] == '+' || s[1] == '-');
      var digits := s[if signed then 2 else 1..];
      var v := Value(digits[..DigitRun(digits)]);
      if signed && s[1] == '-' then 0 - v else v
  }

  /** What can follow the first digits of a numeral: more digits, a fraction, an exponent. */
  function MoreDigits(s: string): (d: string)
    ensures AllDigits(d)
  {
    s[..DigitRun(s)]
  }

  /** What follows the first digits. */
  function Rest(s: string): string {
    s[DigitRun(s)..]
  }

  function FractionAt(rest: string): (f: string)
    ensures AllDigits(f)
  {
    if rest != [] && rest[0] == '.' then MoreDigits(rest[1..]) else ""
  }

  function ExponentAt(rest: string): int {
    if rest != [] && rest[0] == '.' then Exponent(Rest(rest[1..])) else Exponent(rest)
  }

  /** All digits of the numeral s starts with, and the power of ten they are scaled by. */
  function AllOfDigits(s: string): (d: string)
    ensures AllDigits(d)
  {
    MoreDigits(s) + FractionAt(Rest(s))
  }

  function Scale(s: string): int {
    ExponentAt(Rest(s)) - |FractionAt(Rest(s))|
  }

  predicate StartsWithInfinity(s: string) {
    |s| >= 8 && s[..8] == "Infinity"
  }

  function ParseUnsigned(s: string, negative: bool): Number {
    if StartsWithInfinity(s) then Infinite(negative)
    else if AllOfDigits(s) == "" then NaN
    else Scaled(negative, Value(AllOfDigits(s)), Scale(s))
  }

  function ParseFloat(s: string): Number {
    var t := TrimStart(s);
    if t != [] && (t[0] == '+' || t[0] == '-') then ParseUnsigned(t[1..], t[0] == '-') else ParseUnsigned(t, false)
  }

  /** a * 10^x when that is an integer. */
  function Shift(a: nat, x: int): Option<nat>
    decreases if x < 0 then 0 - x else x
  {
    if x == 0 then Some(a)
    else if x > 0 then Shift(10 * a, x - 1)
    else if a % 10 == 0 then Shift(a / 10, x + 1)
    else None
  }

  /** The value when it is an integer. */
  function AsInteger(x: Number): Option<int> {
    if !x.Scaled? then None
    else
      var v := Shift(x.mantissa, x.exponent);
      if v.None? then None else if x.negative then Some(0 - v.value) else Some(v.value)
  }

  function Drop(s: string, n: nat): string {
    if n <= |s| then s[n..] else []
  }

  /** None when the value is fractional or too large to be printed digit by digit. */
  function ParseCoin(s: string): Option<Coin> {
    var x := ParseFloat(s);
    match x
    case NaN => Some(Coin(NotANumber, Drop(s, |"NaN"|)))
    case Infinite(negative) =>
      Some(Coin(Unbounded(negative), Drop(s, if negative then |"-Infinity"| else |"Infinity"|)))
    case Scaled(_, _, _) => CoinOfInteger(AsInteger(x), s)
  }

  function CoinOfInteger(v: Option<int>, s: string): Option<Coin> {
    if v.Some? && 0 - MAX_SAFE_INTEGER <= v.value <= MAX_SAFE_INTEGER
    then Some(Coin(Whole(v.value), Drop(s, |Print(v.value)|)))
    else None
  }

  lemma DigitRunAfter(s: string, u: string)
    requires AllDigits(s)
    ensures MoreDigits(s + u) == s + MoreDigits(u) && Rest(s + u) == Rest(u)
  {
    var w := s + u;
    var n, m := DigitRun(w), DigitRun(u);
    assert w[..n] + w[n..] == w;
    assert (s + u[..m]) + u[m..] == w;
    DigitRunUnique(w[..n], w[n..], s + u[..m], u[m..]);
  }

  lemma Associate(a: string, b: string, c: string)
    ensures (a + b) + c == a + (b + c)
  {
  }

  lemma TakeLast(t: string)
    requires t != []
    ensures t[..|t| - 1] + [t[|t| - 1]] == t
  {
  }

  lemma PartsAfter(s: string, u: string)
    requires AllDigits(s)
    ensures AllOfDigits(s + u) == s + AllOfDigits(u) && Scale(s + u) == Scale(u)
  {
    DigitRunAfter(s, u);
    var more, fraction := MoreDigits(u), FractionAt(Rest(u));
    Associate(s, more, fraction);
  }

  lemma DigitFirst(s: string)
    requires s != [] && IsDigit(s[0])
    ensures !StartsWithInfinity(s) && TrimStart(s) == s && s[0] != '+' && s[0] != '-'
  {
    assert |s| >= 8 ==> s[..8][0] == s[0];
    assert "Infinity"[0] == 'I';
  }

  lemma ParseDigitFirst(s: string)
    requires s != [] && IsDigit(s[0])
    ensures ParseFloat(s) == Scaled(false, Value(AllOfDigits(s)), Scale(s))
  {
    DigitFirst(s);
    assert DigitRun(s) > 0;
    assert |MoreDigits(s)| > 0;
  }

  lemma ParseAfterDigits(s: string, denom: string)
    requires s != [] && AllDigits(s)
    ensures AllDigits(s + AllOfDigits(denom))
    ensures ParseFloat(s + denom) == Scaled(false, Value(s + AllOfDigits(denom)), Scale(denom))
  {
    assert (s + denom)[0] == s[0];
    PartsAfter(s, denom);
    ParseDigitFirst(s + denom);
  }

  predicate AllZeros(s: string) {
    forall i :: 0 <= i < |s| ==> s[i] == '0'
  }

  /** Digits appended to a numeral of value n. */
  lemma {:induction false} AppendedDigits(s: string, t: string)
    requires AllDigits(s) && AllDigits(t)
    ensures AllDigits(s + t) && Value(s + t) >= Value(s)
    ensures t != [] && Value(s) > 0 ==> Value(s + t) > Value(s)
    ensures Value(s) == 0 ==> (Value(s + t) == 0 <==> AllZeros(t))
  {
    if t == [] {
      assert s + t == s;
    } else {
      LastDigit(s, t);
      AppendedDigits(s, t[..|t| - 1]);
    }
  }

  lemma LastDigit(s: string, t: string)
    requires AllDigits(s) && AllDigits(t) && t != []
    ensures AllDigits(s + t) && AllDigits(s + t[..|t| - 1])
    ensures Value(s + t) == 10 * Value(s + t[..|t| - 1]) + DigitValue(t[|t| - 1])
    ensures AllZeros(t) <==> AllZeros(t[..|t| - 1]) && DigitValue(t[|t| - 1]) == 0
  {
    var u, c := s + t[..|t| - 1], t[|t| - 1];
    Associate(s, t[..|t| - 1], [c]);
    TakeLast(t);
    ValuePush(u, c);
    LastZero(t);
  }

  lemma ValuePush(s: string, c: char)
    requires AllDigits(s) && IsDigit(c)
    ensures AllDigits(s + [c]) && Value(s + [c]) == 10 * Value(s) + DigitValue(c)
  {
    assert (s + [c])[..|s|] == s;
  }

  lemma LastZero(t: string)
    requires t != []
    ensures AllZeros(t) <==> AllZeros(t[..|t| - 1]) && t[|t| - 1] == '0'
  {
    var m := |t| - 1;
    assert forall i :: 0 <= i < m ==> t[..m][i] == t[i];
  }

  lemma {:induction false} ShiftUp(a: nat, x: nat)
    ensures Shift(a, x).Some? && Shift(a, x).value >= a && (Shift(a, x).value == a <==> a == 0 || x == 0)
    decreases x
  {
    if x > 0 { ShiftUp(10 * a, x - 1); }
  }

  lemma {:induction false} ShiftDown(a: nat, x: nat)
    ensures Shift(a, 0 - x).Some? ==> Shift(a, 0 - x).value <= a && (Shift(a, 0 - x).value == a <==> a == 0 || x == 0)
    ensures a == 0 ==> Shift(a, 0 - x).Some?
    decreases x
  {
    if x > 0 && a % 10 == 0 { ShiftDown(a / 10, x - 1); }
  }

  lemma ShiftPushed(b: nat, d: nat, x: int)
    requires d < 10 && x < 0
    ensures Shift(10 * b + d, x) == if d == 0 then Shift(b, x + 1) else None
  {
    assert (10 * b + d) % 10 == d && (10 * b + d) / 10 == b;
  }

  /** A numeral followed by no digits at all. */
  lemma ShiftNothing(s: string, x: int)
    requires AllDigits(s)
    ensures Shift(Value(s), x) == Some(Value(s)) <==> Value(s) == 0 || x == 0
  {
    if x >= 0 { ShiftUp(Value(s), x); } else { ShiftDown(Value(s), 0 - x); }
  }

  /** A numeral followed by digits and not scaled down. */
  lemma ShiftUpBackIff(s: string, t: string, x: nat)
    requires AllDigits(s) && AllDigits(t) && t != []
    ensures AllDigits(s + t)
    ensures Shift(Value(s + t), x) == Some(Value(s)) <==> AllZeros(t) && Value(s) == 0
  {
    AppendedDigits(s, t);
    ShiftUp(Value(s + t), x);
  }

  /** A numeral with more digits appended and then scaled is the numeral again. */
  lemma {:induction false} ShiftBackIff(s: string, t: string, x: int)
    requires AllDigits(s) && AllDigits(t)
    ensures AllDigits(s + t)
    ensures Shift(Value(s + t), x) == Some(Value(s)) <==> AllZeros(t) && (Value(s) == 0 || x == 0 - |t|)
    decreases |t|
  {
    if t == [] {
      assert s + t == s;
      ShiftNothing(s, x);
    } else if x >= 0 {
      ShiftUpBackIff(s, t, x);
    } else {
      var before := t[..|t| - 1];
      LastDigit(s, t);
      ShiftPushed(Value(s + before), DigitValue(t[|t| - 1]), x);
      ShiftBackIff(s, before, x + 1);
    }
  }

  /** A coin read as n leaves the denomination after n's own digits. */
  lemma SplitAfterNumeral(n: int, denom: string)
    ensures Drop(Print(n) + denom, |Print(n)|) == denom
  {
  }

  lemma FractionParts(f: string, rest: string)
    requires AllDigits(f) && StopsDigits(rest) && (rest == [] || rest[0] !in {'e', 'E'})
    ensures AllOfDigits("." + f + rest) == f && Scale("." + f + rest) == 0 - |f|
  {
    var s := "." + f + rest;
    assert DigitRun(s) == 0;
    assert s[1..] == f + rest;
    DigitRunAfter(f, rest);
    assert DigitRun(rest) == 0;
  }

  /** A numeral with a fraction: its digits are those before and after the dot, scaled down by the latter. */
  lemma NumeralWithFraction(i: string, f: string, rest: string)
    requires i != [] && AllDigits(i) && AllDigits(f) && StopsDigits(rest) && (rest == [] || rest[0] !in {'e', 'E'})
    ensures AllDigits(i + f)
    ensures ParseFloat(i + ("." + f + rest)) == Scaled(false, Value(i + f), 0 - |f|)
  {
    FractionParts(f, rest);
    ParseAfterDigits(i, "." + f + rest);
  }

  lemma DigitsThenRest(d: string, rest: string)
    requires AllDigits(d) && StopsDigits(rest)
    ensures MoreDigits(d + rest) == d && (d + rest)[..DigitRun(d + rest)] == d
  {
    DigitRunAfter(d, rest);
    assert DigitRun(rest) == 0;
    assert d + "" == d;
  }

  lemma UnsignedExponent(e: char, tail: string)
    requires (e == 'e' || e == 'E') && tail != [] && IsDigit(tail[0])
    ensures Exponent([e] + tail) == Value(MoreDigits(tail))
  {
    var s := [e] + tail;
    assert s[1..] == tail && s[1] == tail[0];
  }

  lemma SignedExponent(e: char, c: char, tail: string)
    requires (e == 'e' || e == 'E') && (c == '+' || c == '-')
    ensures Exponent([e, c] + tail) == if c == '-' then 0 - Value(MoreDigits(tail)) else Value(MoreDigits(tail))
  {
    var s := [e, c] + tail;
    assert s[2..] == tail && s[1] == c;
  }

  lemma ExponentFirst(s: string)
    requires s != [] && !IsDigit(s[0]) && s[0] != '.'
    ensures AllOfDigits(s) == "" && Scale(s) == Exponent(s)
  {
    assert DigitRun(s) == 0;
  }

  lemma ScaledBy(i: string, s: string)
    requires i != [] && AllDigits(i) && s != [] && !IsDigit(s[0]) && s[0] != '.'
    ensures ParseFloat(i + s) == Scaled(false, Value(i), Exponent(s))
  {
    ExponentFirst(s);
    ParseAfterDigits(i, s);
    assert i + "" == i;
  }

  /** A numeral with an exponent is scaled by it. */
  lemma NumeralWithExponent(i: string, e: char, d: string, rest: string)
    requires i != [] && AllDigits(i) && (e == 'e' || e == 'E')
    requires d != [] && AllDigits(d) && StopsDigits(rest)
    ensures ParseFloat(i + ([e] + (d + rest))) == Scaled(false, Value(i), Value(d))
  {
    DigitsThenRest(d, rest);
    assert (d + rest)[0] == d[0];
    UnsignedExponent(e, d + rest);
    ScaledBy(i, [e] + (d + rest));
  }

  /** The exponent may have a sign. */
  lemma NumeralWithSignedExponent(i: string, e: char, c: char, d: string, rest: string)
    requires i != [] && AllDigits(i) && (e == 'e' || e == 'E') && (c == '+' || c == '-')
    requires d != [] && AllDigits(d) && StopsDigits(rest)
    ensures ParseFloat(i + ([e, c] + (d + rest)))
            == Scaled(false, Value(i), if c == '-' then 0 - Value(d) else Value(d))
  {
    DigitsThenRest(d, rest);
    SignedExponent(e, c, d + rest);
    ScaledBy(i, [e, c] + (d + rest));
  }

  /** White space before a number does not matter. */
  lemma LeadingSpace(c: char, s: string)
    requires c == ' ' || c == '\t' || c == '\n' || c == '\r'
    ensures ParseFloat([c] + s) == ParseFloat(s)
  {
    assert ([c] + s)[1..] == s;
  }

  /** The denomination does not change the numeral it follows: the digits it adds are all zeros, and its
      exponent takes back exactly the places added before the dot, or the numeral is zero. */
  predicate KeepsNumeral(n: nat, denom: string) {
    AllZeros(AllOfDigits(denom)) && (n == 0 || ExponentAt(Rest(denom)) == 0 - |MoreDigits(denom)|)
  }

  /** Rounding cannot turn the numeral back into n: the denomination adds no digits to it, so the value
      is n shifted by whole places, or the value is an integer, which is exact or far too large. */
  predicate RoundingIsHarmless(n: nat, denom: string) {
    AllOfDigits(denom) == "" || AsInteger(ParseFloat(Print(n) + denom)).Some?
  }

  /** Splitting a printed amount gives the amount and the denomination back if the denomination does not
      change the numeral, whatever the denomination. Where rounding plays no part it does so only then. */
  lemma RoundTripExact(n: nat, denom: string)
    requires n <= MAX_SAFE_INTEGER
    ensures KeepsNumeral(n, denom) ==> ParseCoin(Print(n) + denom) == Some(Coin(Whole(n), denom))
    ensures RoundingIsHarmless(n, denom)
            ==> (ParseCoin(Print(n) + denom) == Some(Coin(Whole(n), denom)) <==> KeepsNumeral(n, denom))
  {
    ValueOfDigits(n);
    ReadBackIff(Digits(n), denom);
    CoinIff(n, denom);
  }

  /** A denomination whose first characters do not prolong a numeral by digits: rounding is harmless. */
  lemma NoDigitFirst(n: nat, denom: string)
    requires StopsDigits(denom) && (|denom| > 1 && denom[0] == '.' ==> !IsDigit(denom[1]))
    ensures RoundingIsHarmless(n, denom)
    ensures KeepsNumeral(n, denom) <==> n == 0 || ExponentAt(denom) == 0
  {
    assert DigitRun(denom) == 0;
    assert MoreDigits(denom) == "" && Rest(denom) == denom;
    if denom != [] && denom[0] == '.' {
      assert DigitRun(denom[1..]) == 0;
    }
    assert FractionAt(denom) == "";
  }

  /** Denominations that do not start with a digit, nor with a dot and a digit: the coin is read back iff
      the denomination brings no exponent other than zero, or the amount is zero. */
  lemma RoundTripWithoutDigits(n: nat, denom: string)
    requires n <= MAX_SAFE_INTEGER
    requires StopsDigits(denom) && (|denom| > 1 && denom[0] == '.' ==> !IsDigit(denom[1]))
    ensures ParseCoin(Print(n) + denom) == Some(Coin(Whole(n), denom)) <==> n == 0 || ExponentAt(denom) == 0
  {
    NoDigitFirst(n, denom);
    RoundTripExact(n, denom);
  }

  lemma ReadBackIff(s: string, denom: string)
    requires s != [] && AllDigits(s)
    ensures var x := ParseFloat(s + denom);
            x.Scaled? && (AsInteger(x) == Some(Value(s)) <==> KeepsNumeral(Value(s), denom))
  {
    ParseAfterDigits(s, denom);
    ShiftBackIff(s, AllOfDigits(denom), Scale(denom));
    ScaleTakesBackIff(denom);
  }

  lemma ScaleTakesBackIff(denom: string)
    ensures Scale(denom) == 0 - |AllOfDigits(denom)| <==> ExponentAt(Rest(denom)) == 0 - |MoreDigits(denom)|
  {
  }

  lemma CoinIff(n: int, denom: string)
    requires 0 - MAX_SAFE_INTEGER <= n <= MAX_SAFE_INTEGER && ParseFloat(Print(n) + denom).Scaled?
    ensures ParseCoin(Print(n) + denom) == Some(Coin(Whole(n), denom))
            <==> AsInteger(ParseFloat(Print(n) + denom)) == Some(n)
  {
    SplitAfterNumeral(n, denom);
  }

  /** In particular every denomination that starts with a letter other than e and E is safe. */
  lemma RoundTripOfUsualDenoms(n: nat, denom: string)
    requires n <= MAX_SAFE_INTEGER && denom != []
    requires 'a' <= denom[0] <= 'z' || 'A' <= denom[0] <= 'Z'
    requires denom[0] != 'e' && denom[0] != 'E'
    ensures ParseCoin(Print(n) + denom) == Some(Coin(Whole(n), denom))
  {
    RoundTripWithoutDigits(n, denom);
  }

  lemma ParseMinus(w: string)
    ensures ParseFloat("-" + w) == ParseUnsigned(w, true)
  {
    var t := "-" + w;
    assert t[0] == '-' && t[1..] == w;
    assert TrimStart(t) == t;
  }

  lemma UnsignedDigitFirst(w: string, negative: bool)
    requires w != [] && IsDigit(w[0])
    ensures ParseUnsigned(w, negative) == Scaled(negative, Value(AllOfDigits(w)), Scale(w))
  {
    DigitFirst(w);
    assert DigitRun(w) > 0;
    assert |MoreDigits(w)| > 0;
  }

  lemma ParseNegative(w: string, x: Number)
    requires w != [] && IsDigit(w[0]) && ParseFloat(w) == x
    ensures x.Scaled? && ParseFloat("-" + w) == Scaled(true, x.mantissa, x.exponent)
  {
    ParseMinus(w);
    UnsignedDigitFirst(w, true);
    ParseDigitFirst(w);
  }

  lemma NegatedInteger(x: Number, y: Number, n: nat)
    requires x.Scaled? && !x.negative && y == Scaled(true, x.mantissa, x.exponent) && AsInteger(x) == Some(n)
    ensures AsInteger(y) == Some(0 - n)
  {
  }

  lemma NegativeOf(w: string, v: nat)
    requires w != [] && IsDigit(w[0]) && AsInteger(ParseFloat(w)) == Some(v)
    ensures ParseFloat("-" + w).Scaled? && AsInteger(ParseFloat("-" + w)) == Some(0 - v)
  {
    ParseDigitFirst(w);
    var x := ParseFloat(w);
    ParseNegative(w, x);
    NegatedInteger(x, Scaled(true, x.mantissa, x.exponent), v);
  }

  lemma MinusFirst(n: nat, denom: string)
    requires n > 0
    ensures Print(0 - n) + denom == "-" + (Digits(n) + denom)
  {
    Associate("-", Digits(n), denom);
  }

  lemma WholeCoin(s: string, n: int, denom: string)
    requires ParseCoin(s) == Some(Coin(Whole(n), denom))
    ensures AsInteger(ParseFloat(s)) == Some(n) && 0 - MAX_SAFE_INTEGER <= n <= MAX_SAFE_INTEGER
  {
  }

  lemma NegativeRead(s: string, denom: string, n: nat)
    requires s != [] && AllDigits(s) && AsInteger(ParseFloat(s + denom)) == Some(n)
    ensures ParseFloat("-" + (s + denom)).Scaled? && AsInteger(ParseFloat("-" + (s + denom))) == Some(0 - n)
  {
    assert (s + denom)[0] == s[0];
    NegativeOf(s + denom, n);
  }

  /** A negative amount is read back, with its sign, whenever the positive one is. */
  lemma RoundTripOfNegative(n: nat, denom: string)
    requires n > 0 && ParseCoin(Print(n) + denom) == Some(Coin(Whole(n), denom))
    ensures ParseCoin(Print(0 - n) + denom) == Some(Coin(Whole(0 - n), denom))
  {
    WholeCoin(Print(n) + denom, n, denom);
    NegativeRead(Digits(n), denom, n);
    MinusFirst(n, denom);
    CoinIff(0 - n, denom);
  }

  /** Infinity is read as such, and what follows it is the denomination. */
  lemma InfinityIsRead(denom: string)
    ensures ParseCoin("Infinity" + denom) == Some(Coin(Unbounded(false), denom))
  {
    var s := "Infinity" + denom;
    assert s[..8] == "Infinity" && s[8..] == denom && s[0] == 'I';
    assert TrimStart(s) == s;
  }

  /** A text that starts no number is not one, and its denomination lacks the first three characters. */
  lemma NoNumeral(s: string)
    requires s == [] || (!IsSpace(s[0]) && !IsDigit(s[0]) && s[0] !in {'+', '-', '.', 'I'})
    ensures ParseCoin(s) == Some(Coin(NotANumber, if |s| >= 3 then s[3..] else []))
  {
    assert TrimStart(s) == s;
    assert DigitRun(s) == 0;
    assert AllOfDigits(s) == "";
    assert !StartsWithInfinity(s) by {
      if |s| >= 8 { assert s[..8][0] == s[0] && "Infinity"[0] == 'I'; }
    }
  }
}
