/**
 * Concrete token sequences on which the parser's behaviour, quirks included, is
 * computed outright from the specification functions of module ParserSpec.
 */
module ParserExamples {
  import opened Common
  import opened Ast
  import opened Literals
  import opened ParserSpec
  import LiteralProps

  function Id(s: string, offset: int): Token { Token(Identifier, s, offset) }
  function Op(s: string, offset: int): Token { Token(Operator, s, offset) }
  function Num(s: string, offset: int): Token { Token(Integer, s, offset) }

  function Var(name: string): Expr { Access(None, name) }

  /** The binary operators of precedence levels 1 to `level`. */
  function OpsUpTo(level: nat): (r: set<string>)
    ensures forall l :: 1 <= l <= level ==> Ops(l) <= r
  {
    if level == 0 then {} else Ops(level) + OpsUpTo(level - 1)
  }

  /** A primary followed by no operator of levels 1..`level` is the whole climb at `level`. */
  lemma {:induction false} ClimbAtom(toks: seq<Token>, pos: nat, level: nat, e: Expr, q: nat)
    requires pos <= |toks| && 1 <= level <= 4
    requires Primary(toks, pos) == Ok(Parsed(e, q))
    requires q < |toks| ==> toks[q].literal !in OpsUpTo(level)
    ensures Climb(toks, pos, level) == Ok(Parsed(e, q))
    decreases level
  {
    if level > 1 {
      ClimbAtom(toks, pos, level - 1, e, q);
    }
    assert !AtOp(toks, q, level);
  }

  /** A climb at `level` followed by no binary operator at all is the whole expression. */
  lemma {:induction false} ClimbUp(toks: seq<Token>, pos: nat, level: nat, e: Expr, q: nat)
    requires pos <= |toks| && 1 <= level <= 4
    requires Climb(toks, pos, level) == Ok(Parsed(e, q))
    requires q < |toks| ==> toks[q].literal !in OpsUpTo(4)
    ensures Expression(toks, pos) == Ok(Parsed(e, q))
    decreases 4 - level
  {
    if level < 4 {
      assert !AtOp(toks, q, level + 1);
      assert Climb(toks, pos, level + 1) == Ok(Parsed(e, q));
      ClimbUp(toks, pos, level + 1, e, q);
    }
  }

  /**
   * An identifier followed by neither `(`, `[` nor an operator of levels 1..`level` is a
   * variable access, and the whole climb at `level`.
   */
  lemma VarClimb(toks: seq<Token>, pos: nat, level: nat)
    requires pos < |toks| && toks[pos].kind == Identifier && 1 <= level <= 4
    requires toks[pos].literal !in {"TRUE", "NIL", "FALSE", "(", ")"}
    requires pos + 1 < |toks| ==> toks[pos + 1].literal !in {"(", "["} + OpsUpTo(level)
    ensures Climb(toks, pos, level) == Ok(Parsed(Var(toks[pos].literal), pos + 1))
  {
    assert Primary(toks, pos) == Ok(Parsed(Var(toks[pos].literal), pos + 1));
    ClimbAtom(toks, pos, level, Var(toks[pos].literal), pos + 1);
  }

  /** An integer token followed by no binary operator is a whole integer expression. */
  lemma IntExpression(toks: seq<Token>, pos: nat, i: int)
    requires pos < |toks| && toks[pos].kind == Integer
    requires toks[pos].literal !in {"TRUE", "NIL", "FALSE"}
    requires IntegerValue(toks[pos].literal) == Ok(i)
    requires pos + 1 < |toks| ==> toks[pos + 1].literal !in OpsUpTo(4)
    ensures Expression(toks, pos) == Ok(Parsed(Literal(LInt(i)), pos + 1))
  {
    assert Primary(toks, pos) == Ok(Parsed(Literal(LInt(i)), pos + 1));
    ClimbAtom(toks, pos, 4, Literal(LInt(i)), pos + 1);
  }

  /** The token at `pos` starts no keyword statement. */
  predicate NoKeyword(toks: seq<Token>, pos: nat)
  {
    pos < |toks| && toks[pos].literal !in {"LET", "SWITCH", "IF", "WHILE", "RETURN"}
  }

  /** An expression followed by `;` is an expression statement. */
  lemma ExprStmtStep(toks: seq<Token>, pos: nat, e: Expr, q: nat)
    requires NoKeyword(toks, pos) && Expression(toks, pos) == Ok(Parsed(e, q))
    requires !At(toks, q, Lit("=")) && At(toks, q, Lit(";"))
    ensures Statement(toks, pos) == Ok(Parsed(ExprStmt(e), q + 1))
  {
  }

  /** An expression followed by `=`, a second expression and `;` is an assignment. */
  lemma AssignmentStep(toks: seq<Token>, pos: nat, e: Expr, q: nat, v: Expr, r: nat)
    requires NoKeyword(toks, pos) && Expression(toks, pos) == Ok(Parsed(e, q))
    requires At(toks, q, Lit("=")) && Expression(toks, q + 1) == Ok(Parsed(v, r))
    requires At(toks, r, Lit(";"))
    ensures Statement(toks, pos) == Ok(Parsed(Assignment(e, v), r + 1))
  {
  }

  /** An expression followed by neither `=` nor `;` is a missing semicolon. */
  lemma NoSemicolonStep(toks: seq<Token>, pos: nat, e: Expr, q: nat)
    requires NoKeyword(toks, pos) && Expression(toks, pos) == Ok(Parsed(e, q))
    requires !At(toks, q, Lit("=")) && !At(toks, q, Lit(";"))
    ensures Statement(toks, pos) == Err(ErrorAt("Missing semicolon after statement!", toks, q))
  {
  }

  /** A primary that fails makes every climb from it fail the same way. */
  lemma {:induction false} PrimaryErrorClimbs(toks: seq<Token>, pos: nat, level: nat, err: ParseError)
    requires pos <= |toks| && 1 <= level <= 4 && Primary(toks, pos) == Err(err)
    ensures Climb(toks, pos, level) == Err(err)
    decreases level
  {
    if level > 1 {
      PrimaryErrorClimbs(toks, pos, level - 1, err);
    }
  }

  /** `a - b - c` folds to the left. */
  lemma SubtractionFoldsLeft(t: seq<Token>)
    requires t == [Id("a", 0), Op("-", 2), Id("b", 4), Op("-", 6), Id("c", 8)]
    ensures Expression(t, 0) == Ok(Parsed(Binary("-", Binary("-", Var("a"), Var("b")), Var("c")), 5))
  {
    var ab := Binary("-", Var("a"), Var("b"));
    var abc := Binary("-", ab, Var("c"));
    assert ClimbRest(t, 3, 2, ab) == Ok(Parsed(abc, 5)) by {
      VarClimb(t, 4, 1);
      assert ClimbRest(t, 5, 2, abc) == Ok(Parsed(abc, 5));
    }
    assert ClimbRest(t, 1, 2, Var("a")) == Ok(Parsed(abc, 5)) by {
      VarClimb(t, 2, 1);
    }
    VarClimb(t, 0, 1);
    ClimbUp(t, 0, 2, abc, 5);
  }

  /** `a + b * c`: multiplication binds tighter than addition. */
  lemma ProductBindsTighter(t: seq<Token>)
    requires t == [Id("a", 0), Op("+", 2), Id("b", 4), Op("*", 6), Id("c", 8)]
    ensures Expression(t, 0) == Ok(Parsed(Binary("+", Var("a"), Binary("*", Var("b"), Var("c"))), 5))
  {
    var bc := Binary("*", Var("b"), Var("c"));
    var abc := Binary("+", Var("a"), bc);
    assert Climb(t, 2, 1) == Ok(Parsed(bc, 5)) by {
      assert Primary(t, 4) == Ok(Parsed(Var("c"), 5));
      assert ClimbRest(t, 3, 1, Var("b")) == Ok(Parsed(bc, 5));
      assert Primary(t, 2) == Ok(Parsed(Var("b"), 3));
    }
    assert ClimbRest(t, 1, 2, Var("a")) == Ok(Parsed(abc, 5)) by {
      assert ClimbRest(t, 5, 2, abc) == Ok(Parsed(abc, 5));
    }
    VarClimb(t, 0, 1);
    ClimbUp(t, 0, 2, abc, 5);
  }

  /** `a < b && c`: comparison binds tighter than the logical operators. */
  lemma ComparisonBindsTighter(t: seq<Token>)
    requires t == [Id("a", 0), Op("<", 2), Id("b", 4), Op("&&", 6), Id("c", 9)]
    ensures Expression(t, 0) == Ok(Parsed(Binary("&&", Binary("<", Var("a"), Var("b")), Var("c")), 5))
  {
    var ab := Binary("<", Var("a"), Var("b"));
    var abc := Binary("&&", ab, Var("c"));
    assert Climb(t, 0, 3) == Ok(Parsed(ab, 3)) by {
      VarClimb(t, 0, 2);
      VarClimb(t, 2, 2);
      assert ClimbRest(t, 3, 3, ab) == Ok(Parsed(ab, 3));
    }
    assert ClimbRest(t, 3, 4, ab) == Ok(Parsed(abc, 5)) by {
      VarClimb(t, 4, 3);
      assert ClimbRest(t, 5, 4, abc) == Ok(Parsed(abc, 5));
    }
  }

  /** `a + b`, from position 2 of the call below, is a whole expression. */
  lemma CallArgument(t: seq<Token>)
    requires t == [Id("f", 0), Op("(", 1), Id("a", 2), Op("+", 4), Id("b", 6), Op(")", 7)]
    ensures Expression(t, 2) == Ok(Parsed(Binary("+", Var("a"), Var("b")), 5))
  {
    var ab := Binary("+", Var("a"), Var("b"));
    CallArgumentSum(t);
    VarClimb(t, 2, 1);
    ClimbUp(t, 2, 2, ab, 5);
  }

  /** After `a` in `f(a + b)`, the rest of the sum level reads `+ b` and stops at `)`. */
  lemma CallArgumentSum(t: seq<Token>)
    requires t == [Id("f", 0), Op("(", 1), Id("a", 2), Op("+", 4), Id("b", 6), Op(")", 7)]
    ensures ClimbRest(t, 3, 2, Var("a")) == Ok(Parsed(Binary("+", Var("a"), Var("b")), 5))
  {
    var ab := Binary("+", Var("a"), Var("b"));
    VarClimb(t, 4, 1);
    assert ClimbRest(t, 5, 2, ab) == Ok(Parsed(ab, 5));
  }

  /** `f(a + b)` calls `f` with an access to `b`, the last token of the argument. */
  lemma CallArgumentBecomesLastToken(t: seq<Token>)
    requires t == [Id("f", 0), Op("(", 1), Id("a", 2), Op("+", 4), Id("b", 6), Op(")", 7)]
    ensures Expression(t, 0) == Ok(Parsed(Call("f", [Var("b")]), 6))
  {
    var call := Call("f", [Var("b")]);
    assert Primary(t, 0) == Ok(Parsed(call, 6)) by {
      CallArgument(t);
      assert CallRest(t, 5, "f", [Var("b")]) == Ok(Parsed(call, 6));
      assert CallArgs(t, 2, "f") == Ok(Parsed(call, 6));
    }
    ClimbAtom(t, 0, 4, call, 6);
  }

  /** `f(,` is rejected at the comma, using the offset of the token before it. */
  lemma CallLeadingComma(t: seq<Token>)
    requires t == [Id("f", 0), Op("(", 1), Op(",", 2)]
    ensures Expression(t, 0) == Err(ParseException("Trailing comma not allowed!", 2))
  {
    assert Primary(t, 0) == Err(ParseException("Trailing comma not allowed!", 2)) by {
      assert CallArgs(t, 2, "f") == Err(ParseException("Trailing comma not allowed!", 2));
    }
    PrimaryErrorClimbs(t, 0, 4, ParseException("Trailing comma not allowed!", 2));
  }

  /** `LET x;` has no type, and wrapping the missing type fails with a null pointer. */
  lemma UntypedDeclarationWithoutValue()
    ensures Statement([Id("LET", 0), Id("x", 4), Op(";", 5)], 0) == Err(NullPointer)
  {
  }

  /** `LET x: Integer = 1;` declares a variable named after the type token. */
  lemma TypedDeclarationTakesTypeName(t: seq<Token>)
    requires t == [Id("LET", 0), Id("x", 4), Op(":", 5), Id("Integer", 7), Op("=", 15), Num("1", 17), Op(";", 18)]
    ensures Statement(t, 0) == Ok(Parsed(Declaration("Integer", Some("Integer"), Some(Literal(LInt(1)))), 7))
  {
    var one := Literal(LInt(1));
    assert DeclarationTail(t, 4, "x", Some("Integer")) == Ok(Parsed(Declaration("Integer", Some("Integer"), Some(one)), 7)) by {
      assert IntegerValue("1") == Ok(1);
      IntExpression(t, 5, 1);
    }
    assert ColonType(t, 2) == (Some("Integer"), 4);
  }

  /** `LET x +` reports the cursor position 2, not a token offset. */
  lemma InvalidDeclarationUsesIndex()
    ensures Statement([Id("LET", 0), Id("x", 4), Op("+", 6)], 0)
         == Err(ParseException("Invalid declaration statement!", 2))
  {
  }

  /** The two sides of `x = 1;` are whole expressions. */
  lemma AssignmentSides(t: seq<Token>)
    requires t == [Id("x", 0), Op("=", 2), Num("1", 4), Op(";", 5)]
    ensures Expression(t, 0) == Ok(Parsed(Var("x"), 1))
    ensures Expression(t, 2) == Ok(Parsed(Literal(LInt(1)), 3))
  {
    assert Expression(t, 0) == Ok(Parsed(Var("x"), 1)) by {
      VarClimb(t, 0, 4);
    }
    assert IntegerValue("1") == Ok(1);
    IntExpression(t, 2, 1);
  }

  /** `x = 1;` is an assignment. */
  lemma AssignmentStatement(t: seq<Token>)
    requires t == [Id("x", 0), Op("=", 2), Num("1", 4), Op(";", 5)]
    ensures Statement(t, 0) == Ok(Parsed(Assignment(Var("x"), Literal(LInt(1))), 4))
  {
    AssignmentSides(t);
    AssignmentStep(t, 0, Var("x"), 1, Literal(LInt(1)), 3);
  }

  /** `x;` is an expression statement. */
  lemma ExpressionStatement(t: seq<Token>)
    requires t == [Id("x", 0), Op(";", 1)]
    ensures Statement(t, 0) == Ok(Parsed(ExprStmt(Var("x")), 2))
  {
    VarClimb(t, 0, 4);
    ExprStmtStep(t, 0, Var("x"), 1);
  }

  /** `x y` lacks the `;`: the error is reported at the offset of `x`. */
  lemma MissingSemicolon(t: seq<Token>)
    requires t == [Id("x", 0), Id("y", 2)]
    ensures Statement(t, 0) == Err(ParseException("Missing semicolon after statement!", 0))
  {
    VarClimb(t, 0, 4);
    NoSemicolonStep(t, 0, Var("x"), 1);
  }

  /**
   * The string token `"\\n"` (an escaped backslash, then `n`) holds a newline: the
   * replacement chain rewrites `\\` to `\` first and then reads `\n` as an escape.
   */
  lemma EscapedBackslashBecomesNewline(t: seq<Token>)
    requires t == [Token(String, "\"\\\\n\"", 0)]
    ensures LiteralToken(t, 0) == Ok(Literal(LStr("\n")))
  {
    var token := t[0].literal;
    assert token[1..|token| - 1] == "\\\\n";
    LiteralProps.UnescapeStringLosesBackslash();
    assert StringValue(token) == Ok("\n");
    assert |token| == 5;
    assert !At(t, 0, Lit("TRUE")) && !At(t, 0, Lit("NIL")) && !At(t, 0, Lit("FALSE"));
  }

  /** The elements after the first of the list below: `, 2` then `]`. */
  lemma ListTail(t: seq<Token>)
    requires t == [Id("LIST", 0), Id("l", 5), Op("=", 7), Op("[", 9), Num("1", 10), Op(",", 11),
                   Num("2", 13), Op("]", 14)]
    ensures ListRest(t, 5, []) == Ok(Parsed([Literal(LInt(2))], 7))
  {
    var two := Literal(LInt(2));
    assert IntegerValue("2") == Ok(2);
    IntExpression(t, 6, 2);
    assert ListRest(t, 7, [two]) == Ok(Parsed([two], 7));
    assert [] + [two] == [two];
  }

  /** `LIST l = [1, 2]` keeps only the first element expression. */
  lemma ListKeepsFirstElement(t: seq<Token>)
    requires t == [Id("LIST", 0), Id("l", 5), Op("=", 7), Op("[", 9), Num("1", 10), Op(",", 11),
                   Num("2", 13), Op("]", 14)]
    ensures GlobalDecl(t, 0) == Ok(Parsed(Global("l", None, true, Some(Literal(LInt(1)))), 8))
  {
    var one := Literal(LInt(1));
    assert ListBody(t, 2, "l", None) == Ok(Parsed(Global("l", None, true, Some(one)), 8)) by {
      assert IntegerValue("1") == Ok(1);
      IntExpression(t, 4, 1);
      ListTail(t);
    }
    assert DeclName(t, 0, "LIST") == Ok(Parsed(t[1], 2));
  }

  /** `VAL v 1` lacks `=`: a ParseException at the offset of the name. */
  lemma ImmutableWithoutEquals()
    ensures GlobalDecl([Id("VAL", 0), Id("v", 4), Num("1", 6)], 0)
         == Err(ParseException("Invalid immutable!", 4))
  {
  }

  /** `FUN f() DO END` has no return type and fails with a null pointer. */
  lemma FunctionWithoutReturnType(t: seq<Token>)
    requires t == [Id("FUN", 0), Id("f", 4), Op("(", 5), Op(")", 6), Id("DO", 8), Id("END", 11)]
    ensures FunctionDecl(t, 0) == Err(NullPointer)
  {
    assert FunctionBody(t, 4, "f", [], []) == Err(NullPointer) by {
      assert ColonType(t, 4) == (None, 4);
      assert Block(t, 5, []) == Ok(Parsed([], 5));
    }
    assert Params(t, 3) == Ok(Parsed(([], []), 3));
    assert DeclName(t, 0, "FUN") == Ok(Parsed(t[1], 2));
  }

  /** `FUN f(a,) ...` is rejected at the comma. */
  lemma ParameterTrailingComma(t: seq<Token>)
    requires t == [Id("FUN", 0), Id("f", 4), Op("(", 5), Id("a", 6), Op(",", 7), Op(")", 8)]
    ensures FunctionDecl(t, 0) == Err(ParseException("Trailing comma not allowed!", 7))
  {
    assert Params(t, 3) == Err(ParseException("Trailing comma not allowed!", 7)) by {
      assert ParamType(t, 4, []) == ([], 4);
    }
    assert DeclName(t, 0, "FUN") == Ok(Parsed(t[1], 2));
  }

  /** Tokens that start neither a global nor a function are left unread: no end-of-input check. */
  lemma NoEndOfInputCheck()
    ensures SourceDecl([Id("x", 0), Op(";", 1)], 0) == Ok(Parsed(Source([], []), 0))
  {
  }
}
