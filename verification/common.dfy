/** Failure-compatible wrappers shared by the parser, interpreter and generator models. */
module Common {

  datatype Option<+T> = None | Some(value: T)

  /** The Java code signals failures with exceptions; the model returns them as `Err`. */
  datatype Result<+T, +E> = Ok(value: T) | Err(error: E) {
    predicate IsFailure() { Err? }

    function PropagateFailure<U>(): Result<U, E>
      requires Err?
    {
      Err(error)
    }

    function Extract(): T
      requires Ok?
    {
      value
    }
  }

  /** `Pow(b, n)` is b raised to the n-th power. */
  function Pow(b: int, n: nat): int
  {
    if n == 0 then 1 else b * Pow(b, n - 1)
  }

  /** Decimal digits of a natural number, most significant first. */
  function NatToString(n: nat): (s: string)
    ensures |s| > 0
    ensures forall i :: 0 <= i < |s| ==> '0' <= s[i] <= '9'
    decreases n
  {
    if n < 10 then [DigitChar(n)] else NatToString(n / 10) + [DigitChar(n % 10)]
  }

  function DigitChar(d: nat): (c: char)
    requires d < 10
    ensures '0' <= c <= '9'
  {
    (('0' as int) + d) as char
  }

  /** `BigInteger.toString()`: an optional minus sign followed by the decimal digits. */
  function IntToString(i: int): string
  {
    if i < 0 then "-" + NatToString(-i) else NatToString(i)
  }
}
