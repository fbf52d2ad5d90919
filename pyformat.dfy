/** Python's fixed-point formatting with no fractional digits, "{0:.0f}".format(x),
    stated on exact real values: the magnitude is rounded to the nearest integer
    with ties going to the even neighbour, written in decimal without leading
    zeros, and a minus sign is written whenever the value is negative (so a
    value in (-0.5, 0) is written "-0"). */
module PyFormat {

  function Abs(x: real): real {
    if x < 0.0 then -x else x
  }

  /** k is an integer nearest to x, and the even one when x lies halfway. */
  predicate IsRoundHalfEven(x: real, k: int) {
    var d := x - k as real;
    -0.5 <= d <= 0.5 && ((d == 0.5 || d == -0.5) ==> k % 2 == 0)
  }

  function RoundHalfEven(x: real): (k: nat)
    requires x >= 0.0
    ensures IsRoundHalfEven(x, k)
  {
    var f := x.Floor;
    var frac := x - f as real;
    if frac < 0.5 then f
    else if frac > 0.5 then f + 1
    else if f % 2 == 0 then f
    else f + 1
  }

  /** Rounding half to even has exactly one answer. */
  lemma RoundHalfEvenUnique(x: real, k: int)
    requires x >= 0.0 && IsRoundHalfEven(x, k)
    ensures k == RoundHalfEven(x)
  {
  }

  predicate IsDigits(s: string) {
    forall i :: 0 <= i < |s| ==> '0' <= s[i] <= '9'
  }

  /** The number a string of decimal digits denotes. */
  function DecimalValue(s: string): nat
    requires IsDigits(s)
    decreases |s|
  {
    if s == [] then 0
    else 10 * DecimalValue(s[..|s| - 1]) + (s[|s| - 1] as int - '0' as int)
  }

  function Digit(d: nat): (c: char)
    requires d < 10
    ensures '0' <= c <= '9' && c as int - '0' as int == d
  {
    ('0' as int + d) as char
  }

  /** The decimal numeral of n, as Python writes an integer. */
  function Decimal(n: nat): (s: string)
    ensures |s| >= 1 && '0' <= s[0] <= '9' && '0' <= s[|s| - 1] <= '9'
  {
    if n < 10 then [Digit(n)] else Decimal(n / 10) + [Digit(n % 10)]
  }

  /** Decimal(n) is a numeral without leading zeros whose value is n. */
  lemma {:induction false} DecimalMeaning(n: nat)
    ensures var s := Decimal(n);
      && |s| >= 1 && IsDigits(s) && DecimalValue(s) == n
      && (s[0] == '0' ==> s == "0")
  {
    if n >= 10 {
      DecimalMeaning(n / 10);
      var s := Decimal(n);
      assert s[..|s| - 1] == Decimal(n / 10);
      assert s[0] == Decimal(n / 10)[0];
    }
  }

  /** The digits of a formatted number, without its sign. */
  function Unsigned(s: string): string {
    if s != [] && s[0] == '-' then s[1..] else s
  }

  /** "{0:.0f}".format(x). */
  function Fmt0(x: real): (s: string)
    ensures |s| >= 1 && '0' <= s[|s| - 1] <= '9'
  {
    var digits := Decimal(RoundHalfEven(Abs(x)));
    if x < 0.0 then "-" + digits else digits
  }

  /** What Fmt0 writes: a minus sign exactly for negative values, then the
      decimal digits of the magnitude rounded half to even. */
  lemma Fmt0Meaning(x: real)
    ensures var s := Fmt0(x);
      && |s| >= 1 && (s[0] == '-' <==> x < 0.0)
      && |Unsigned(s)| >= 1 && IsDigits(Unsigned(s))
      && (Unsigned(s)[0] == '0' ==> Unsigned(s) == "0")
      && IsRoundHalfEven(Abs(x), DecimalValue(Unsigned(s)))
      && (forall i :: 0 <= i < |s| ==> s[i] == '-' || '0' <= s[i] <= '9')
  {
    var digits := Decimal(RoundHalfEven(Abs(x)));
    DecimalMeaning(RoundHalfEven(Abs(x)));
    if x < 0.0 {
      assert Unsigned("-" + digits) == digits;
    }
  }
}
