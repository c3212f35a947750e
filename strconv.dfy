/** Go's strconv.Atoi on a 64-bit platform, which the subscription handlers
    apply to the `id` query value, and strconv.Itoa, its inverse. */
module StrConv {
  import opened Common

  predicate IsDigit(c: char) {
    '0' <= c <= '9'
  }

  predicate AllDigits(s: string) {
    forall i :: 0 <= i < |s| ==> IsDigit(s[i])
  }

  function DigitValue(c: char): nat
    requires IsDigit(c)
  {
    (c as int) - ('0' as int)
  }

  function DigitChar(d: nat): (c: char)
    requires d < 10
    ensures IsDigit(c) && DigitValue(c) == d
  {
    (('0' as int) + d) as char
  }

  /** The value of a string of decimal digits, most significant first. */
  function DecimalValue(s: string): nat
    requires AllDigits(s)
  {
    if s == [] then 0 else DecimalValue(s[..|s| - 1]) * 10 + DigitValue(s[|s| - 1])
  }

  function Pow10(n: nat): (r: nat)
    ensures r >= 1
  {
    if n == 0 then 1 else 10 * Pow10(n - 1)
  }

  /** Whether `s` starts with a sign character. */
  predicate HasSign(s: string) {
    |s| > 0 && (s[0] == '+' || s[0] == '-')
  }

  /** The digits part of `s`, after an optional leading sign. */
  function Magnitude(s: string): string {
    if HasSign(s) then s[1..] else s
  }

  /** The text form Atoi reads: an optional sign followed by at least one decimal digit. */
  predicate IsIntegerText(s: string) {
    |Magnitude(s)| > 0 && AllDigits(Magnitude(s))
  }

  function SignedValue(s: string): int
    requires IsIntegerText(s)
  {
    var m: int := DecimalValue(Magnitude(s));
    if HasSign(s) && s[0] == '-' then -m else m
  }

  /** strconv.Atoi: the integer written in `s`, or None for a syntax or range error. */
  function Atoi(s: string): (r: Option<int>)
    ensures r.Some? ==> IsIntegerText(s) && r.value == SignedValue(s)
    ensures r.Some? ==> MinInt <= r.value <= MaxInt
    ensures IsIntegerText(s) && MinInt <= SignedValue(s) <= MaxInt ==> r.Some?
    ensures IsIntegerText(s) && |Magnitude(s)| <= 18 ==> r.Some?
  {
    if !IsIntegerText(s) then None
    else
      var v := SignedValue(s);
      ShortTextFits(Magnitude(s));
      if MinInt <= v <= MaxInt then Some(v) else None
  }

  /** A string of n digits denotes less than 10^n. */
  lemma {:induction false} DecimalValueBound(s: string)
    requires AllDigits(s)
    ensures DecimalValue(s) < Pow10(|s|)
  {
    if s != [] {
      var init := s[..|s| - 1];
      DecimalValueBound(init);
      assert DecimalValue(init) + 1 <= Pow10(|init|);
      assert DecimalValue(s) < (DecimalValue(init) + 1) * 10;
    }
  }

  /** Up to 18 digits always fit in a 64-bit integer: Atoi's fast path. */
  lemma ShortTextFits(s: string)
    requires AllDigits(s)
    ensures |s| <= 18 ==> DecimalValue(s) < 1_000_000_000_000_000_000
  {
    if |s| <= 18 {
      DecimalValueBound(s);
      Pow10Monotone(|s|, 18);
      assert Pow10(6) == 1_000_000;
      assert Pow10(12) == 1_000_000_000_000;
      assert Pow10(18) == 1_000_000_000_000_000_000;
    }
  }

  lemma {:induction false} Pow10Monotone(i: nat, j: nat)
    requires i <= j
    ensures Pow10(i) <= Pow10(j)
    decreases j
  {
    if i < j {
      Pow10Monotone(i, j - 1);
    }
  }

  /** The decimal digits of `n`, without leading zeros. */
  function Digits(n: nat): (s: string)
    ensures |s| > 0 && AllDigits(s)
  {
    if n < 10 then [DigitChar(n)] else Digits(n / 10) + [DigitChar(n % 10)]
  }

  /** strconv.Itoa */
  function Itoa(n: int): string {
    if n < 0 then "-" + Digits(-n) else Digits(n)
  }

  lemma {:induction false} DecimalValueOfDigits(n: nat)
    ensures DecimalValue(Digits(n)) == n
  {
    if n >= 10 {
      var s := Digits(n);
      assert s[..|s| - 1] == Digits(n / 10);
      DecimalValueOfDigits(n / 10);
    }
  }

  /** Atoi reads back every 64-bit integer Itoa writes. */
  lemma AtoiOfItoa(n: int)
    requires MinInt <= n <= MaxInt
    ensures Atoi(Itoa(n)) == Some(n)
  {
    var s := Itoa(n);
    if n < 0 {
      assert Magnitude(s) == Digits(-n);
      DecimalValueOfDigits(-n);
    } else {
      assert !HasSign(s);
      DecimalValueOfDigits(n);
    }
  }
}
