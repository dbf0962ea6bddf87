/** Decimal text, as strconv writes and reads it. */
module Decimal {
  import opened Wrappers

  const TWO_TO_THE_63 := 0x8000_0000_0000_0000

  predicate IsInt64(n: int) {
    -TWO_TO_THE_63 <= n < TWO_TO_THE_63
  }

  predicate IsDigit(c: char) {
    '0' <= c <= '9'
  }

  function DigitValue(c: char): nat
    requires IsDigit(c)
  {
    c as int - '0' as int
  }

  function DigitOf(d: nat): (c: char)
    requires d < 10
    ensures IsDigit(c) && DigitValue(c) == d
  {
    (d + '0' as int) as char
  }

  function Digits(n: nat): (s: string)
    ensures s != "" && forall k :: 0 <= k < |s| ==> IsDigit(s[k])
  {
    if n < 10 then [DigitOf(n)] else Digits(n / 10) + [DigitOf(n % 10)]
  }

  /** strconv.Itoa. */
  function Itoa(n: int): string {
    if n < 0 then "-" + Digits(-n) else Digits(n)
  }

  predicate AllDigits(s: string) {
    forall k :: 0 <= k < |s| ==> IsDigit(s[k])
  }

  function Number(s: string): nat
    requires AllDigits(s)
  {
    if |s| == 0 then 0
    else
      var front: nat := Number(s[..|s| - 1]);
      10 * front + DigitValue(s[|s| - 1])
  }

  datatype Reading = Fits(value: int) | OutOfRange(value: int) | NotANumber

  /** strconv.ParseInt in base ten and 64 bits: an optional sign, then at least one digit; out of range clamps. */
  function ParseInt(s: string): Reading {
    var negative := |s| > 0 && s[0] == '-';
    var rest := if |s| > 0 && (s[0] == '-' || s[0] == '+') then s[1..] else s;
    if rest == "" || !AllDigits(rest) then NotANumber
    else
      var n: int := Number(rest);
      var signed := if negative then -n else n;
      if IsInt64(signed) then Fits(signed)
      else OutOfRange(if negative then -TWO_TO_THE_63 else TWO_TO_THE_63 - 1)
  }

  /** strconv.Atoi, whose errors the queue ignores. */
  function Atoi(s: string): Option<int> {
    match ParseInt(s)
    case Fits(n) => Some(n)
    case _ => None
  }

  /** ToInt64 on text. */
  function ToInt64(s: string): int {
    match ParseInt(s)
    case Fits(n) => n
    case OutOfRange(n) => n
    case NotANumber => 0
  }

  lemma {:induction false} NumberOfDigits(n: nat)
    ensures Number(Digits(n)) == n
  {
    if n >= 10 {
      var s := Digits(n);
      assert s[..|s| - 1] == Digits(n / 10);
      NumberOfDigits(n / 10);
    }
  }

  lemma ParsePositive(n: nat)
    requires n < TWO_TO_THE_63
    ensures ParseInt(Digits(n)) == Fits(n)
  {
    NumberOfDigits(n);
    assert IsDigit(Digits(n)[0]);
  }

  lemma ParseNegative(n: int)
    requires 0 <= n <= TWO_TO_THE_63
    ensures ParseInt("-" + Digits(n)) == Fits(-n)
  {
    NumberOfDigits(n);
    assert ("-" + Digits(n))[1..] == Digits(n);
  }

  /** A text of digits reads as its value, with or without a sign; values that do not fit are clamped or refused. */
  lemma ReadsSigned(d: string)
    requires d != "" && AllDigits(d)
    ensures Number(d) < TWO_TO_THE_63 ==> Atoi(d) == Atoi("+" + d) == Some(Number(d)) && ToInt64(d) == Number(d)
    ensures var n: int := Number(d); n <= TWO_TO_THE_63 ==> Atoi("-" + d) == Some(-n) && ToInt64("-" + d) == -n
    ensures Number(d) >= TWO_TO_THE_63 ==> Atoi(d) == Atoi("+" + d) == None && ToInt64(d) == TWO_TO_THE_63 - 1
    ensures Number(d) > TWO_TO_THE_63 ==> Atoi("-" + d) == None && ToInt64("-" + d) == -TWO_TO_THE_63
  {
    assert IsDigit(d[0]);
    assert ("-" + d)[1..] == d && ("+" + d)[1..] == d;
  }

  /** A text with anything else in it does not read as a number. */
  lemma RefusesOther(s: string, k: nat)
    requires k < |s| && !IsDigit(s[k]) && (k == 0 ==> s[0] != '-' && s[0] != '+')
    ensures Atoi(s) == None && ToInt64(s) == 0
  {
    if s[0] == '-' || s[0] == '+' {
      assert s[1..][k - 1] == s[k];
    }
  }

  /** What Itoa writes, Atoi and ToInt64 read back. */
  lemma RoundTrip(n: int)
    requires IsInt64(n)
    ensures Atoi(Itoa(n)) == Some(n) && ToInt64(Itoa(n)) == n
  {
    if n < 0 {
      ParseNegative(-n);
    } else {
      ParsePositive(n);
    }
  }
}
