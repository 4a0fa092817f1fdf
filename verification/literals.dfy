/**
 * Decoding of literal tokens into the values held by literal nodes:
 * `new BigInteger(text)`, `new BigDecimal(text)`, and the quote stripping and
 * escape replacement the parser applies to character and string tokens
 * (Parser.java:424-450).
 */
module Literals {
  import opened Common
  import opened Ast

  /** `NumberFormatException` and `StringIndexOutOfBoundsException`. */
  datatype LiteralError = NumberFormat(text: string) | StringIndexOutOfBounds

  predicate IsDigit(c: char) { '0' <= c <= '9' }

  predicate AllDigits(s: string) { forall i :: 0 <= i < |s| ==> IsDigit(s[i]) }

  /** The natural number written by a string of decimal digits. */
  function DigitsValue(s: string): (n: nat)
    requires AllDigits(s)
  {
    if s == [] then 0
    else DigitsValue(s[..|s| - 1]) * 10 + ((s[|s| - 1] as int) - ('0' as int))
  }

  /** Splits an optional leading `+` or `-` off a numeral: (negative?, rest). */
  function SplitSign(s: string): (r: (bool, string))
    ensures |r.1| <= |s|
  {
    if |s| > 0 && (s[0] == '-' || s[0] == '+') then (s[0] == '-', s[1..]) else (false, s)
  }

  /** `new BigInteger(s)`: an optional sign followed by one or more decimal digits. */
  function IntegerValue(s: string): (r: Result<int, LiteralError>)
    ensures r.Ok? <==> |SplitSign(s).1| > 0 && AllDigits(SplitSign(s).1)
  {
    var (neg, digits) := SplitSign(s);
    if |digits| == 0 || !AllDigits(digits) then Err(NumberFormat(s))
    else
      var n: int := DigitsValue(digits);
      Ok(if neg then -n else n)
  }

  function IndexOf(s: string, c: char): (i: nat)
    ensures i <= |s|
    ensures i < |s| ==> s[i] == c
    ensures forall j :: 0 <= j < i ==> s[j] != c
  {
    if s == [] then 0 else if s[0] == c then 0 else 1 + IndexOf(s[1..], c)
  }

  /**
   * `new BigDecimal(s)` for the plain notation: an optional sign, digits, and an
   * optional point followed by digits, with at least one digit in all. The scale is
   * the number of digits after the point.
   */
  function DecimalValue(s: string): (r: Result<BigDecimal, LiteralError>)
    ensures r.Ok? ==> r.value.scale < |s|
    ensures r.Err? ==> r.error == NumberFormat(s)
  {
    var (neg, body) := SplitSign(s);
    var p := IndexOf(body, '.');
    var intPart := body[..p];
    var fracPart := if p < |body| then body[p + 1..] else "";
    if !AllDigits(intPart) || !AllDigits(fracPart) || |intPart| + |fracPart| == 0 then
      Err(NumberFormat(s))
    else
      var n: int := DigitsValue(intPart + fracPart);
      Ok(BigDecimal(if neg then -n else n, |fracPart|))
  }

  /**
   * `s.replace(target, replacement)`: every non-overlapping occurrence of `target`,
   * scanning from the left, is replaced.
   */
  function ReplaceAll(s: string, target: string, replacement: string): (r: string)
    requires |target| > 0
    ensures |replacement| <= |target| ==> |r| <= |s|
  {
    if |s| < |target| then s
    else if s[..|target|] == target then replacement + ReplaceAll(s[|target|..], target, replacement)
    else [s[0]] + ReplaceAll(s[1..], target, replacement)
  }

  /** Strips the first and last character of a quoted token, or fails as `substring(1, len - 1)` does. */
  function StripQuotes(token: string): (r: Result<string, LiteralError>)
    ensures r.Ok? <==> |token| >= 2
    ensures r.Ok? ==> token == [token[0]] + r.value + [token[|token| - 1]]
  {
    if |token| < 2 then Err(StringIndexOutOfBounds) else Ok(token[1..|token| - 1])
  }

  /** The escape replacements for character literals, in the order Parser.java:431-437 applies them. */
  function UnescapeChar(body: string): (r: string)
    ensures |r| <= |body|
  {
    var s := ReplaceAll(body, "\\\\", "\\");
    var s := ReplaceAll(s, "\\'", "'");
    var s := ReplaceAll(s, "\\\"", "\"");
    var s := ReplaceAll(s, "\\b", "\U{8}");
    var s := ReplaceAll(s, "\\n", "\n");
    var s := ReplaceAll(s, "\\r", "\r");
    ReplaceAll(s, "\\t", "\t")
  }

  /**
   * The escape replacements for string literals, in the order Parser.java:443-449 applies
   * them. Because `\\` is rewritten before `\n`, `\r`, `\t` and `\b`, an escaped
   * backslash followed by one of those letters turns into a control character.
   */
  function UnescapeString(body: string): (r: string)
    ensures |r| <= |body|
  {
    var s := ReplaceAll(body, "\\\"", "\"");
    var s := ReplaceAll(s, "\\'", "'");
    var s := ReplaceAll(s, "\\\\", "\\");
    var s := ReplaceAll(s, "\\b", "\U{8}");
    var s := ReplaceAll(s, "\\n", "\n");
    var s := ReplaceAll(s, "\\r", "\r");
    ReplaceAll(s, "\\t", "\t")
  }

  /** The character held by a character token: the first character of the unescaped body. */
  function CharValue(token: string): (r: Result<char, LiteralError>)
    ensures r.Ok? ==> |token| >= 3
  {
    var body :- StripQuotes(token);
    var s := UnescapeChar(body);
    if |s| == 0 then Err(StringIndexOutOfBounds) else Ok(s[0])
  }

  /** The text held by a string token: the body between the quotes, put through the replacement chain. */
  function StringValue(token: string): (r: Result<string, LiteralError>)
    ensures r.Ok? <==> |token| >= 2
    ensures r.Ok? ==> |r.value| <= |token| - 2
  {
    var body :- StripQuotes(token);
    Ok(UnescapeString(body))
  }

  /** The evidently intended decoding of a string token: the body unescaped in one left-to-right pass. */
  function StringValueFixed(token: string): (r: Result<string, LiteralError>)
    ensures r.Ok? <==> |token| >= 2
  {
    var body :- StripQuotes(token);
    Ok(UnescapeFixed(body))
  }

  /** The control character an escape letter stands for, if it is one of `b n r t`. */
  function ControlChar(c: char): Option<char>
  {
    if c == 'b' then Some('\U{8}')
    else if c == 'n' then Some('\n')
    else if c == 'r' then Some('\r')
    else if c == 't' then Some('\t')
    else None
  }

  /** The escape letter of an escapable character: backslash, quotes and the control characters. */
  function EscapeLetter(c: char): Option<char>
  {
    if c == '\\' then Some('\\')
    else if c == '"' then Some('"')
    else if c == '\'' then Some('\'')
    else if c == '\U{8}' then Some('b')
    else if c == '\n' then Some('n')
    else if c == '\r' then Some('r')
    else if c == '\t' then Some('t')
    else None
  }

  /** How a string literal's text is written inside the quotes of a string token. */
  function Escape(s: string): (r: string)
    ensures |r| >= |s|
  {
    if s == [] then []
    else
      var e := EscapeLetter(s[0]);
      (if e.Some? then ['\\', e.value] else [s[0]]) + Escape(s[1..])
  }

  /**
   * Single-pass unescaping: a backslash followed by one of `\ ' " b n r t` is one
   * character; every other character stands for itself.
   */
  function UnescapeFixed(body: string): string
  {
    if |body| >= 2 && body[0] == '\\' && (body[1] in "\\'\"" || ControlChar(body[1]).Some?) then
      [if body[1] in "\\'\"" then body[1] else ControlChar(body[1]).value] + UnescapeFixed(body[2..])
    else if body == [] then []
    else [body[0]] + UnescapeFixed(body[1..])
  }
}
