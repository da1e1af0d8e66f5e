/**
 * The parts of the Java runtime that the volume control relies on:
 * its exceptions, 32-bit `int` arithmetic (the `(int)` narrowing of a
 * `long` and unary minus) and `String.valueOf(int)`.
 */
module Java {

  datatype Option<+T> = None | Some(value: T)

  /** The exceptions the volume control throws or lets propagate. */
  datatype Exception =
    | IllegalArgumentException(message: string)
    | IllegalStateException(message: string)
    | IOException(message: string)
    | SecurityException(message: string)
    | InterruptedException

  /** A call that either returns a value or throws. */
  datatype Result<+T> = Ok(value: T) | Err(error: Exception)

  const MinInt: int := -0x8000_0000
  const MaxInt: int := 0x7fff_ffff

  /** Java's `int`. */
  type Int32 = x: int | -0x8000_0000 <= x <= 0x7fff_ffff

  /** The `(int)` cast of a `long`: keeps the low 32 bits, two's complement. */
  function Narrow(x: int): (r: Int32)
    ensures (x - r) % 0x1_0000_0000 == 0
    ensures MinInt <= x <= MaxInt ==> r == x
  {
    var m := x % 0x1_0000_0000;
    if m <= MaxInt then m else m - 0x1_0000_0000
  }

  /** Unary minus on `int`, which wraps for the one value without a positive partner. */
  function Negate(x: Int32): (r: Int32)
    ensures x != MinInt ==> r == -x
    ensures x == MinInt ==> r == MinInt
  {
    Narrow(-(x as int))
  }

  // ---------------------------------------------------------------------
  // Decimal text of an integer

  predicate IsDigit(c: char) {
    '0' <= c <= '9'
  }

  predicate AllDigits(s: string) {
    forall i :: 0 <= i < |s| ==> IsDigit(s[i])
  }

  function DigitChar(d: int): (c: char)
    requires 0 <= d < 10
    ensures IsDigit(c)
  {
    (48 + d) as char
  }

  /** The decimal digits of `n`, most significant first, without leading zeros. */
  function Digits(n: nat): (s: string)
    ensures |s| >= 1 && AllDigits(s)
    ensures s[0] == '0' <==> n == 0
    ensures s[0] == '0' ==> s == "0"
    decreases n
  {
    if n < 10 then [DigitChar(n)] else Digits(n / 10) + [DigitChar(n % 10)]
  }

  /** `String.valueOf(int)`: an optional minus sign, then the digits; never a plus sign. */
  function ValueOf(n: int): (s: string)
    ensures |s| >= 1
    ensures s[0] == '-' <==> n < 0
    ensures n >= 0 ==> AllDigits(s)
    ensures n < 0 ==> s[1..] == Digits(-n)
  {
    if n < 0 then "-" + Digits(-n) else Digits(n)
  }

  /** The number a string of digits denotes. */
  function DigitsValue(s: string): nat
    requires AllDigits(s)
    decreases |s|
  {
    if s == [] then 0
    else DigitsValue(s[..|s| - 1]) * 10 + (s[|s| - 1] as int - 48)
  }

  /** Reads an optionally negative decimal numeral; the independent partner of `ValueOf`. */
  function ReadDecimal(s: string): Option<int> {
    if |s| > 1 && s[0] == '-' && AllDigits(s[1..]) then Some(-(DigitsValue(s[1..]) as int))
    else if |s| > 0 && AllDigits(s) then Some(DigitsValue(s))
    else None
  }

  lemma {:induction false} DigitsValueOfDigits(n: nat)
    ensures DigitsValue(Digits(n)) == n
    decreases n
  {
    if n >= 10 {
      var s := Digits(n);
      assert s[..|s| - 1] == Digits(n / 10);
      DigitsValueOfDigits(n / 10);
    }
  }

  /** Reading back the text `String.valueOf` produced gives the number again. */
  lemma ReadDecimalValueOf(n: int)
    ensures ReadDecimal(ValueOf(n)) == Some(n)
  {
    if n < 0 {
      DigitsValueOfDigits(-n);
    } else {
      DigitsValueOfDigits(n);
    }
  }

  /** Distinct numbers have distinct texts. */
  lemma ValueOfInjective(m: int, n: int)
    requires ValueOf(m) == ValueOf(n)
    ensures m == n
  {
    ReadDecimalValueOf(m);
    ReadDecimalValueOf(n);
  }

  /** The text of a negated number is the text of the number with a minus sign in front, except for zero. */
  lemma ValueOfNegated(v: nat)
    ensures ValueOf(-(v as int)) == if v == 0 then "0" else "-" + ValueOf(v)
  {
  }
}
