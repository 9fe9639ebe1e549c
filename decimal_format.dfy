/**
 * The integer arithmetic and the decimal rendering that the timer display
 * relies on: Kotlin's `Long` division and remainder, which round toward zero
 * (Dafny's `/` and `%` are Euclidean), and `String.format("%02d", n)` with
 * ASCII digits.
 */
module DecimalFormat {

  /** Kotlin `a / b` on `Long` for a positive divisor: the quotient rounded toward zero. */
  function JavaDiv(a: int, b: int): (q: int)
    requires b > 0
    ensures a >= 0 ==> 0 <= q * b <= a < q * b + b
    ensures a < 0 ==> q * b - b < a <= q * b <= 0
  {
    if a >= 0 then
      EuclideanDivision(a, b);
      a / b
    else
      EuclideanDivision(-a, b);
      assert -((-a) / b) * b == -(((-a) / b) * b);
      -((-a) / b)
  }

  /** Dafny's division of a non-negative number: quotient times divisor plus remainder. */
  lemma EuclideanDivision(a: nat, b: int)
    requires b > 0
    ensures (a / b) * b + a % b == a && 0 <= a % b < b && a / b >= 0
  {
  }

  /** Kotlin `a % b` on `Long` for a positive divisor: the remainder has the sign of `a`. */
  function JavaRem(a: int, b: int): (r: int)
    requires b > 0
    ensures JavaDiv(a, b) * b + r == a
    ensures a >= 0 ==> 0 <= r < b
    ensures a < 0 ==> -b < r <= 0
  {
    if a >= 0 then a % b else -((-a) % b)
  }

  predicate IsDigit(ch: char) {
    '0' <= ch <= '9'
  }

  predicate AllDigits(s: string) {
    forall i :: 0 <= i < |s| ==> IsDigit(s[i])
  }

  function DigitValue(ch: char): (d: nat)
    requires IsDigit(ch)
    ensures d < 10
  {
    ch as int - '0' as int
  }

  function DigitChar(d: nat): (ch: char)
    requires d < 10
    ensures IsDigit(ch) && DigitValue(ch) == d
  {
    (d + '0' as int) as char
  }

  /** The decimal digits of `n`, most significant first, without leading zeros. */
  function Digits(n: nat): (s: string)
    ensures |s| >= 1 && AllDigits(s)
    ensures s[0] == '0' ==> n == 0
    ensures n < 10 <==> |s| == 1
    ensures 10 <= n < 100 ==> |s| == 2
    decreases n
  {
    if n < 10 then [DigitChar(n)] else Digits(n / 10) + [DigitChar(n % 10)]
  }

  /** The number a string of decimal digits denotes. */
  function Value(s: string): nat
    requires AllDigits(s)
    decreases |s|
  {
    if s == [] then 0 else 10 * Value(s[..|s| - 1]) + DigitValue(s[|s| - 1])
  }

  /** Reading back the digits of `n` gives `n`. */
  lemma {:induction false} ValueOfDigits(n: nat)
    ensures Value(Digits(n)) == n
  {
    if n >= 10 {
      var s := Digits(n);
      assert s[..|s| - 1] == Digits(n / 10);
      ValueOfDigits(n / 10);
    }
  }

  /**
   * `String.format("%02d", n)`: the decimal digits of `n`, zero-padded to at
   * least two characters; a negative number is its sign followed by its digits,
   * which is already two characters wide.
   */
  function Format02d(n: int): (s: string)
    ensures |s| >= 2 && ':' !in s
    ensures n >= 0 ==> AllDigits(s) && Value(s) == n
    ensures (|s| == 2 && AllDigits(s)) <==> 0 <= n < 100
    ensures n < 0 ==> s[0] == '-' && s[1..] == Digits(-n)
    ensures n >= 10 ==> s == Digits(n)
    ensures 0 <= n < 10 ==> s == ['0', DigitChar(n)]
  {
    if n < 0 then
      assert !IsDigit((['-'] + Digits(-n))[0]);
      ['-'] + Digits(-n)
    else if n < 10 then
      ValueOfDigits(n);
      assert Value(['0']) == 0;
      assert (['0'] + Digits(n))[..1] == ['0'];
      ['0'] + Digits(n)
    else
      ValueOfDigits(n);
      Digits(n)
  }
}
