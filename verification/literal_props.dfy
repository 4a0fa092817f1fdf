/**
 * Properties of literal decoding: numerals, the quote stripping and escape handling of
 * character and string tokens, and the discrepancy in the string replacement chain.
 */
module LiteralProps {
  import opened Common
  import opened Ast
  import opened Literals

  // ---------------------------------------------------------------- numerals

  lemma {:induction false} DigitsValueOfNat(n: nat)
    ensures AllDigits(NatToString(n)) && DigitsValue(NatToString(n)) == n
    decreases n
  {
    if n >= 10 {
      DigitsValueOfNat(n / 10);
      var s := NatToString(n / 10) + [DigitChar(n % 10)];
      assert NatToString(n) == s;
      assert s[..|s| - 1] == NatToString(n / 10);
    }
  }

  /** Integer literals round-trip through their decimal text: `new BigInteger(i.toString())` is `i`. */
  lemma IntegerValueOfText(i: int)
    ensures IntegerValue(IntToString(i)) == Ok(i)
  {
    var n: nat := if i < 0 then -i else i;
    DigitsValueOfNat(n);
    var digits := NatToString(n);
    if i < 0 {
      assert IntToString(i) == "-" + digits;
      assert SplitSign("-" + digits) == (true, digits);
    } else {
      assert IntToString(i) == digits;
      assert SplitSign(digits) == (false, digits);
    }
  }

  /** A numeral with any character other than an optional leading sign and digits is rejected. */
  lemma IntegerValueRejects(s: string, k: nat)
    requires 0 < k < |s| && !IsDigit(s[k])
    ensures IntegerValue(s).Err?
  {
    var (neg, digits) := SplitSign(s);
    if |s| > 0 && (s[0] == '-' || s[0] == '+') {
      assert digits[k - 1] == s[k];
    } else {
      assert digits[k] == s[k];
    }
  }

  /** `k` zero digits. */
  function Zeros(k: nat): (z: string)
    ensures |z| == k && AllDigits(z)
  {
    seq(k, _ => '0')
  }

  /** The digits of the unscaled value, with leading zeros so that one is left before the point. */
  function Padded(d: BigDecimal): (p: string)
    ensures |p| > d.scale && AllDigits(p)
  {
    var digits := NatToString(if d.unscaled < 0 then -d.unscaled else d.unscaled);
    (if |digits| <= d.scale then Zeros(d.scale + 1 - |digits|) else "") + digits
  }

  /** The plain text `BigDecimal.toPlainString` writes for `d`: sign, digits, and `scale` digits after a point. */
  function PlainText(d: BigDecimal): (t: string)
    ensures |t| > d.scale
  {
    var padded := Padded(d);
    var k := |padded| - d.scale;
    SignText(d.unscaled < 0) + (if d.scale == 0 then padded else padded[..k] + "." + padded[k..])
  }

  lemma {:induction false} DigitsValueLeadingZeros(k: nat, d: string)
    requires AllDigits(d)
    ensures AllDigits(Zeros(k) + d) && DigitsValue(Zeros(k) + d) == DigitsValue(d)
    decreases |d|, k
  {
    var s := Zeros(k) + d;
    if d == [] {
      assert s == Zeros(k);
      if k > 0 {
        assert s[..|s| - 1] == Zeros(k - 1) + [];
        DigitsValueLeadingZeros(k - 1, []);
      }
    } else {
      var init := d[..|d| - 1];
      assert s[..|s| - 1] == Zeros(k) + init;
      assert s[|s| - 1] == d[|d| - 1];
      DigitsValueLeadingZeros(k, init);
    }
  }

  lemma AllDigitsConcat(a: string, b: string)
    requires AllDigits(a) && AllDigits(b)
    ensures AllDigits(a + b)
  {
    forall k | 0 <= k < |a + b| ensures IsDigit((a + b)[k]) {
      if k < |a| {
        assert (a + b)[k] == a[k];
      } else {
        assert (a + b)[k] == b[k - |a|];
      }
    }
  }

  /** The text of a sign: `-` for a negative numeral, nothing otherwise. */
  function SignText(neg: bool): string
  {
    if neg then "-" else ""
  }

  lemma SplitSignOf(neg: bool, body: string)
    requires |body| > 0 ==> body[0] != '-' && body[0] != '+'
    ensures SplitSign(SignText(neg) + body) == (neg, body)
  {
    var s := SignText(neg) + body;
    if neg {
      assert s[0] == '-' && s[1..] == body;
    } else {
      assert s == body;
    }
  }

  lemma IndexOfPoint(i: string, f: string)
    requires AllDigits(i)
    ensures IndexOf(i + "." + f, '.') == |i|
  {
    var s := i + "." + f;
    var p := IndexOf(s, '.');
    assert s[|i|] == '.';
    assert forall k :: 0 <= k < |i| ==> s[k] == i[k];
    assert !IsDigit('.');
  }

  /**
   * A decimal numeral with a point: the unscaled value is the digits on both sides of the
   * point read as one number, with the sign, and the scale is the number of digits after it.
   */
  lemma DecimalValueOfParts(neg: bool, i: string, f: string)
    requires AllDigits(i) && AllDigits(f) && |f| > 0
    ensures AllDigits(i + f)
    ensures DecimalValue(SignText(neg) + i + "." + f)
      == Ok(BigDecimal(if neg then -(DigitsValue(i + f) as int) else DigitsValue(i + f), |f|))
  {
    AllDigitsConcat(i, f);
    var body := i + "." + f;
    assert SignText(neg) + i + "." + f == SignText(neg) + body;
    assert body[0] == if |i| > 0 then i[0] else '.';
    SplitSignOf(neg, body);
    IndexOfPoint(i, f);
    assert body[..|i|] == i && body[|i| + 1..] == f;
    var r := DecimalValue(SignText(neg) + body);
    assert r.Ok? && r.value.scale == |f|;
    assert r.value.unscaled == if neg then -(DigitsValue(i + f) as int) else DigitsValue(i + f);
  }

  /** A numeral without a point has scale zero and the value of its digits. */
  lemma DecimalValueOfDigits(neg: bool, i: string)
    requires AllDigits(i) && |i| > 0
    ensures DecimalValue(SignText(neg) + i)
      == Ok(BigDecimal(if neg then -(DigitsValue(i) as int) else DigitsValue(i), 0))
  {
    assert IsDigit(i[0]);
    SplitSignOf(neg, i);
    var p := IndexOf(i, '.');
    assert !IsDigit('.');
    assert p == |i|;
    assert i[..p] + "" == i;
    var r := DecimalValue(SignText(neg) + i);
    assert r.Ok? && r.value.scale == 0;
    assert r.value.unscaled == if neg then -(DigitsValue(i) as int) else DigitsValue(i);
  }

  lemma PaddedValue(d: BigDecimal)
    ensures DigitsValue(Padded(d)) == if d.unscaled < 0 then -d.unscaled else d.unscaled
  {
    var n: nat := if d.unscaled < 0 then -d.unscaled else d.unscaled;
    var digits := NatToString(n);
    DigitsValueOfNat(n);
    if |digits| <= d.scale {
      DigitsValueLeadingZeros(d.scale + 1 - |digits|, digits);
    } else {
      assert Padded(d) == digits;
    }
  }

  lemma PlainTextSplit(d: BigDecimal) returns (i: string, f: string)
    requires d.scale > 0
    ensures AllDigits(i) && AllDigits(f) && |f| == d.scale && i + f == Padded(d)
    ensures PlainText(d) == SignText(d.unscaled < 0) + i + "." + f
  {
    var padded := Padded(d);
    var k := |padded| - d.scale;
    i, f := padded[..k], padded[k..];
    assert i + f == padded;
    assert AllDigits(i) by {
      forall j | 0 <= j < |i| ensures IsDigit(i[j]) {
        assert i[j] == padded[j];
      }
    }
    assert AllDigits(f) by {
      forall j | 0 <= j < |f| ensures IsDigit(f[j]) {
        assert f[j] == padded[k + j];
      }
    }
    var sign := SignText(d.unscaled < 0);
    assert PlainText(d) == sign + (i + "." + f);
    assert sign + (i + "." + f) == sign + i + "." + f;
  }

  /** Every decimal value is read back from its plain text: `new BigDecimal(d.toPlainString())` is `d`, scale included. */
  lemma DecimalValueOfText(d: BigDecimal)
    ensures DecimalValue(PlainText(d)) == Ok(d)
  {
    PaddedValue(d);
    var neg := d.unscaled < 0;
    if d.scale == 0 {
      DecimalValueOfDigits(neg, Padded(d));
    } else {
      var i, f := PlainTextSplit(d);
      DecimalValueOfParts(neg, i, f);
    }
  }

  // ---------------------------------------------------------------- replacement

  /** `replace` with a target that starts with a backslash leaves a backslash-free text as it is. */
  lemma {:induction false} ReplaceAllNoBackslash(s: string, target: string, replacement: string)
    requires |target| > 0 && target[0] == '\\' && '\\' !in s
    ensures ReplaceAll(s, target, replacement) == s
    decreases |s|
  {
    if |s| >= |target| {
      assert s[..|target|][0] == s[0] != '\\';
      ReplaceAllNoBackslash(s[1..], target, replacement);
      assert [s[0]] + s[1..] == s;
    }
  }

  /** The replacement chain as written leaves backslash-free text unchanged. */
  lemma UnescapeStringPlain(body: string)
    requires '\\' !in body
    ensures UnescapeString(body) == body
  {
    ReplaceAllNoBackslash(body, "\\\"", "\"");
    ReplaceAllNoBackslash(body, "\\'", "'");
    ReplaceAllNoBackslash(body, "\\\\", "\\");
    ReplaceAllNoBackslash(body, "\\b", "\U{8}");
    ReplaceAllNoBackslash(body, "\\n", "\n");
    ReplaceAllNoBackslash(body, "\\r", "\r");
    ReplaceAllNoBackslash(body, "\\t", "\t");
  }

  // ---------------------------------------------------------------- string tokens

  lemma {:induction false} UnescapeFixedPlain(body: string)
    requires '\\' !in body
    ensures UnescapeFixed(body) == body
    decreases |body|
  {
    if body != [] {
      assert body[0] in body;
      assert '\\' !in body[1..] by {
        forall i | 0 <= i < |body[1..]| ensures body[1..][i] != '\\' {
          assert body[1..][i] == body[i + 1];
        }
      }
      UnescapeFixedPlain(body[1..]);
      assert [body[0]] + body[1..] == body;
    }
  }

  /** A string token without backslashes holds its text with the two quotes removed. */
  lemma StringValuePlain(text: string)
    requires '\\' !in text
    ensures StringValue("\"" + text + "\"") == Ok(text)
  {
    var token := "\"" + text + "\"";
    assert token[1..|token| - 1] == text;
    UnescapeStringPlain(text);
  }

  /** `\b`, `\n`, `\r` and `\t` in a string body stand for the corresponding control character. */
  lemma UnescapeControl(letter: char, rest: string)
    requires ControlChar(letter).Some?
    ensures UnescapeFixed(['\\', letter] + rest) == [ControlChar(letter).value] + UnescapeFixed(rest)
  {
    var body := ['\\', letter] + rest;
    assert body[0] == '\\' && body[1] == letter && body[2..] == rest;
  }

  lemma {:induction false} UnescapeEscape(s: string)
    ensures UnescapeFixed(Escape(s)) == s
    decreases |s|
  {
    if s != [] {
      var e := EscapeLetter(s[0]);
      var rest := Escape(s[1..]);
      UnescapeEscape(s[1..]);
      if e.Some? {
        var body := ['\\', e.value] + rest;
        assert Escape(s) == body;
        assert body[0] == '\\' && body[1] == e.value && body[2..] == rest;
      } else {
        var body := [s[0]] + rest;
        assert Escape(s) == body;
        if s[0] == '\\' {
          assert false;
        }
        assert body[0] == s[0] && body[1..] == rest;
      }
      assert [s[0]] + s[1..] == s;
    }
  }

  /** Every string is read back from the token that writes it with escapes: the one-pass decoding is a left inverse of escaping. */
  lemma StringValueFixedRoundTrip(s: string)
    ensures StringValueFixed("\"" + Escape(s) + "\"") == Ok(s)
  {
    var token := "\"" + Escape(s) + "\"";
    assert token[1..|token| - 1] == Escape(s);
    UnescapeEscape(s);
  }

  /**
   * The chain of replacements as written decodes an escaped backslash followed by `n`
   * (the body `\\n`) to a newline, so the text `\n` (backslash, n) does not round-trip.
   */
  lemma UnescapeStringLosesBackslash()
    ensures Escape("\\n") == "\\\\n"
    ensures UnescapeString(Escape("\\n")) == "\n"
    ensures UnescapeFixed(Escape("\\n")) == "\\n"
  {
    assert Escape("\\n") == "\\\\n";
    var s0 := "\\\\n";
    var s1 := ReplaceAll(s0, "\\\"", "\"");
    assert s1 == s0;
    var s2 := ReplaceAll(s1, "\\'", "'");
    assert s2 == s0;
    var s3 := ReplaceAll(s2, "\\\\", "\\");
    assert s3 == "\\n";
    var s4 := ReplaceAll(s3, "\\b", "\U{8}");
    assert s4 == "\\n";
    var s5 := ReplaceAll(s4, "\\n", "\n");
    assert s5 == "\n";
    UnescapeEscape("\\n");
  }

  /**
   * A string body whose every backslash begins one of the escapes `\' \" \b \n \r \t`:
   * no escaped backslash and no lone backslash at the end.
   */
  predicate SimpleEscapes(body: string)
    decreases |body|
  {
    if body == [] then true
    else if body[0] != '\\' then SimpleEscapes(body[1..])
    else |body| >= 2 && body[1] in "'\"bnrt" && SimpleEscapes(body[2..])
  }

  /** One character other than a backslash, or a backslash followed by a character other than a backslash. */
  predicate Piece(p: string)
  {
    (|p| == 1 && p[0] != '\\') || (|p| == 2 && p[0] == '\\' && p[1] != '\\')
  }

  /** What one `replace` of a two-character escape does to a piece on its own. */
  function Step(p: string, target: string, replacement: string): string
  {
    if p == target then replacement else p
  }

  /** `replace` of an escape never matches across the boundary after a piece. */
  lemma {:induction false} ReplaceAllPiece(p: string, rest: string, target: string, replacement: string)
    requires Piece(p) && |target| == 2 && target[0] == '\\'
    ensures ReplaceAll(p + rest, target, replacement)
      == Step(p, target, replacement) + ReplaceAll(rest, target, replacement)
    decreases |p|
  {
    var s := p + rest;
    if |p| == 1 {
      if |s| >= 2 {
        assert s[..2][0] == p[0];
        assert s[1..] == rest;
      } else {
        assert rest == [];
      }
    } else if p == target {
      assert s[..2] == p && s[2..] == rest;
    } else {
      assert s[..2] == p;
      var q := [p[1]];
      assert s[1..] == q + rest;
      ReplaceAllPiece(q, rest, target, replacement);
      assert [s[0]] + q == p;
    }
  }

  /** The replacement chain of UnescapeString applied to one piece on its own. */
  function PieceChain(p: string): string
  {
    var s := Step(p, "\\\"", "\"");
    var s := Step(s, "\\'", "'");
    var s := Step(s, "\\\\", "\\");
    var s := Step(s, "\\b", "\U{8}");
    var s := Step(s, "\\n", "\n");
    var s := Step(s, "\\r", "\r");
    Step(s, "\\t", "\t")
  }

  lemma PieceChainPlain(c: char)
    requires c != '\\'
    ensures PieceChain([c]) == UnescapeFixed([c])
  {
    assert [c][1..] == [];
  }

  /** Each single escape other than an escaped backslash comes out of the chain as the character it stands for. */
  lemma PieceChainEscape(letter: char)
    requires letter in "'\"bnrt"
    ensures PieceChain(['\\', letter]) == UnescapeFixed(['\\', letter])
  {
    var p := ['\\', letter];
    assert p[2..] == [];
    if letter == '\'' {
      assert PieceChain(p) == "'";
    } else if letter == '"' {
      assert PieceChain(p) == "\"";
    } else if letter == 'b' {
      assert PieceChain(p) == "\U{8}";
    } else if letter == 'n' {
      assert PieceChain(p) == "\n";
    } else if letter == 'r' {
      assert PieceChain(p) == "\r";
    } else {
      assert PieceChain(p) == "\t";
    }
  }

  /** The replacement chain as written works piece by piece on a body without an escaped backslash. */
  lemma UnescapeStringPiece(p: string, rest: string)
    requires Piece(p) && (|p| == 2 ==> p[1] in "'\"bnrt")
    ensures UnescapeString(p + rest) == PieceChain(p) + UnescapeString(rest)
  {
    ReplaceAllPiece(p, rest, "\\\"", "\"");
    var p1 := Step(p, "\\\"", "\"");
    var r1 := ReplaceAll(rest, "\\\"", "\"");
    ReplaceAllPiece(p1, r1, "\\'", "'");
    var p2 := Step(p1, "\\'", "'");
    var r2 := ReplaceAll(r1, "\\'", "'");
    ReplaceAllPiece(p2, r2, "\\\\", "\\");
    var p3 := Step(p2, "\\\\", "\\");
    var r3 := ReplaceAll(r2, "\\\\", "\\");
    assert p3 == p2;
    ReplaceAllPiece(p3, r3, "\\b", "\U{8}");
    var p4 := Step(p3, "\\b", "\U{8}");
    var r4 := ReplaceAll(r3, "\\b", "\U{8}");
    ReplaceAllPiece(p4, r4, "\\n", "\n");
    var p5 := Step(p4, "\\n", "\n");
    var r5 := ReplaceAll(r4, "\\n", "\n");
    ReplaceAllPiece(p5, r5, "\\r", "\r");
    var p6 := Step(p5, "\\r", "\r");
    var r6 := ReplaceAll(r5, "\\r", "\r");
    ReplaceAllPiece(p6, r6, "\\t", "\t");
  }

  /** The one-pass decoder also works piece by piece. */
  lemma UnescapeFixedPiece(p: string, rest: string)
    requires Piece(p) && (|p| == 2 ==> p[1] in "'\"bnrt")
    ensures UnescapeFixed(p + rest) == UnescapeFixed(p) + UnescapeFixed(rest)
  {
    var s := p + rest;
    if |p| == 1 {
      assert s[0] == p[0] && s[1..] == rest && p[1..] == [];
    } else {
      assert s[0] == '\\' && s[1] == p[1] && s[2..] == rest && p[2..] == [];
    }
  }

  /** A leading character other than a backslash: the chain as written keeps it and goes on with the rest. */
  lemma UnescapeStringPlainHead(c: char, rest: string)
    requires c != '\\'
    ensures UnescapeString([c] + rest) == UnescapeFixed([c]) + UnescapeString(rest)
  {
    UnescapeStringPiece([c], rest);
    PieceChainPlain(c);
  }

  /** A leading escape other than `\\`: the chain as written decodes it and goes on with the rest. */
  lemma UnescapeStringEscapeHead(letter: char, rest: string)
    requires letter in "'\"bnrt"
    ensures UnescapeString(['\\', letter] + rest) == UnescapeFixed(['\\', letter]) + UnescapeString(rest)
  {
    UnescapeStringPiece(['\\', letter], rest);
    PieceChainEscape(letter);
  }

  /**
   * On a body without an escaped backslash, the replacement chain as written decodes
   * exactly as the one-pass decoder does.
   */
  lemma {:induction false} UnescapeStringAgrees(body: string)
    requires SimpleEscapes(body)
    ensures UnescapeString(body) == UnescapeFixed(body)
    decreases |body|
  {
    if body != [] {
      if body[0] != '\\' {
        var rest := body[1..];
        assert body == [body[0]] + rest;
        UnescapeStringPlainHead(body[0], rest);
        UnescapeFixedPiece([body[0]], rest);
        UnescapeStringAgrees(rest);
      } else {
        var rest := body[2..];
        assert body == ['\\', body[1]] + rest;
        UnescapeStringEscapeHead(body[1], rest);
        UnescapeFixedPiece(['\\', body[1]], rest);
        UnescapeStringAgrees(rest);
      }
    }
  }

  /**
   * `\b`, `\n`, `\r` and `\t` in a string body stand for the corresponding control
   * character under the replacement chain as written, when no escaped backslash follows.
   */
  lemma UnescapeStringControl(letter: char, rest: string)
    requires ControlChar(letter).Some? && SimpleEscapes(rest)
    ensures UnescapeString(['\\', letter] + rest) == [ControlChar(letter).value] + UnescapeString(rest)
  {
    assert letter == 'b' || letter == 'n' || letter == 'r' || letter == 't';
    assert letter in "'\"bnrt";
    UnescapeStringEscapeHead(letter, rest);
    assert UnescapeFixed(['\\', letter]) == [ControlChar(letter).value] by {
      assert ['\\', letter][2..] == [];
    }
  }

  lemma {:induction false} EscapeSimple(s: string)
    requires '\\' !in s
    ensures SimpleEscapes(Escape(s))
    decreases |s|
  {
    if s != [] {
      assert s[0] in s;
      assert '\\' !in s[1..] by {
        forall i | 0 <= i < |s[1..]| ensures s[1..][i] != '\\' {
          assert s[1..][i] == s[i + 1];
        }
      }
      EscapeSimple(s[1..]);
      var e := EscapeLetter(s[0]);
      var body := Escape(s);
      if e.Some? {
        assert body == ['\\', e.value] + Escape(s[1..]);
        assert body[2..] == Escape(s[1..]);
      } else {
        assert body == [s[0]] + Escape(s[1..]);
        assert body[1..] == Escape(s[1..]);
      }
    }
  }

  /**
   * A string without a backslash is read back from the token that writes it with escapes,
   * under the replacement chain as written (a backslash is what breaks the round trip).
   */
  lemma StringValueRoundTrip(s: string)
    requires '\\' !in s
    ensures StringValue("\"" + Escape(s) + "\"") == Ok(s)
  {
    var token := "\"" + Escape(s) + "\"";
    assert token[1..|token| - 1] == Escape(s);
    EscapeSimple(s);
    UnescapeStringAgrees(Escape(s));
    UnescapeEscape(s);
  }

  // ---------------------------------------------------------------- character tokens

  /** A character token writing `c` (escaped when it must be) holds `c`. */
  lemma CharValueRoundTrip(c: char)
    ensures CharValue("'" + Escape([c]) + "'") == Ok(c)
  {
    var token := "'" + Escape([c]) + "'";
    var body := Escape([c]);
    assert [c][1..] == [] && [c][0] == c;
    assert Escape([]) == [];
    assert token[1..|token| - 1] == body;
    if EscapeLetter(c).None? {
      assert body == [c];
      ReplaceAllShort(body);
    } else {
      assert body == ['\\', EscapeLetter(c).value];
      UnescapeCharEscaped(c);
    }
  }

  /** The character-literal replacement chain turns the escape of `c` back into `c`. */
  lemma UnescapeCharEscaped(c: char)
    requires EscapeLetter(c).Some?
    ensures UnescapeChar(['\\', EscapeLetter(c).value]) == [c]
  {
    var body := ['\\', EscapeLetter(c).value];
    var s1 := ReplaceAllPair('\\', EscapeLetter(c).value, "\\\\", "\\");
    var s2 := ReplaceAllPairOr(s1, body, "\\'", "'");
    var s3 := ReplaceAllPairOr(s2, body, "\\\"", "\"");
    var s4 := ReplaceAllPairOr(s3, body, "\\b", "\U{8}");
    var s5 := ReplaceAllPairOr(s4, body, "\\n", "\n");
    var s6 := ReplaceAllPairOr(s5, body, "\\r", "\r");
    var s7 := ReplaceAllPairOr(s6, body, "\\t", "\t");
    assert UnescapeChar(body) == s7;
  }

  /** `replace` of a two-character target leaves a text of one character as it is. */
  lemma ReplaceAllShort(s: string)
    requires |s| <= 1
    ensures forall target, replacement | |target| == 2 :: ReplaceAll(s, target, replacement) == s
  {
  }

  /** `replace` on a text of two characters with a target of two characters. */
  lemma ReplaceAllPair(a: char, b: char, target: string, replacement: string) returns (r: string)
    requires |target| == 2
    ensures r == ReplaceAll([a, b], target, replacement)
    ensures r == if [a, b] == target then replacement else [a, b]
  {
    var s := [a, b];
    assert s[..2] == s && s[2..] == [] && s[1..] == [b];
    r := ReplaceAll(s, target, replacement);
  }

  /** One step of a replacement chain on a text that is either still `pair` or one character long. */
  lemma ReplaceAllPairOr(s: string, pair: string, target: string, replacement: string) returns (r: string)
    requires |target| == 2 && |pair| == 2 && (s == pair || |s| <= 1)
    ensures r == ReplaceAll(s, target, replacement)
    ensures s == pair ==> r == if pair == target then replacement else pair
    ensures |s| <= 1 ==> r == s
  {
    if s == pair {
      r := ReplaceAllPair(pair[0], pair[1], target, replacement);
      assert [pair[0], pair[1]] == pair;
    } else {
      ReplaceAllShort(s);
      r := s;
    }
  }
}
