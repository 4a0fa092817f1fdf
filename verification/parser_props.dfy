/**
 * Properties of the parser specification (module ParserSpec), and hence, through the
 * `Follows` postconditions of module Parsing, of the Java parser.
 */
module ParserProps {
  import opened Common
  import opened Ast
  import opened Literals
  import opened ParserSpec

  // ---------------------------------------------------------------- lookahead

  /** `peek` is false whenever fewer tokens than patterns remain. */
  lemma PeekNeedsRoom(toks: seq<Token>, pos: nat, ps: seq<Pattern>)
    requires pos <= |toks| < pos + |ps|
    ensures !PeekAt(toks, pos, ps)
  {
    var i := |ps| - 1;
    var last := ps[i];
    assert !(pos + i < |toks|);
  }

  /** A literal pattern compares only the literal and a kind pattern only the kind. */
  lemma PeekComparesOnePart(toks: seq<Token>, pos: nat, s: string, k: TokenKind)
    requires pos < |toks|
    ensures PeekAt(toks, pos, [Lit(s)]) <==> toks[pos].literal == s
    ensures PeekAt(toks, pos, [Kind(k)]) <==> toks[pos].kind == k
  {
    PeekAtOne(toks, pos, Lit(s));
    PeekAtOne(toks, pos, Kind(k));
  }

  // ---------------------------------------------------------------- precedence

  /** The precedence level of a binary operator: 1 binds tightest, 4 loosest, 0 is not an operator. */
  function LevelOf(op: string): (l: nat)
    ensures l <= 4
    ensures l > 0 ==> op in Ops(l)
  {
    if op in Ops(4) then 4 else if op in Ops(3) then 3 else if op in Ops(2) then 2
    else if op in Ops(1) then 1 else 0
  }

  /** What the lexer guarantees: a token spelling a binary operator is an operator token. */
  predicate OperatorsLexed(toks: seq<Token>)
  {
    forall i :: 0 <= i < |toks| && LevelOf(toks[i].literal) > 0 ==> toks[i].kind == Operator
  }

  /**
   * `e` is a tree the precedence climb can build at level `k`: a binary node's operator
   * has a level of at most `k`, its left operand may hold operators of the same level
   * (left associativity) and its right operand only tighter ones; groups and indices
   * start again at the loosest level; call arguments are plain accesses.
   */
  predicate Shaped(e: Expr, k: nat)
  {
    match e
    case Binary(op, l, r) => 1 <= LevelOf(op) <= k && Shaped(l, LevelOf(op)) && Shaped(r, LevelOf(op) - 1)
    case Group(inner) => Shaped(inner, 4)
    case Access(offset, _) => offset.Some? ==> Shaped(offset.value, 4)
    case Call(_, args) => forall a :: a in args ==> a.Access? && a.offset.None?
    case Literal(_) => true
    case PlcList(_) => false
  }

  lemma ShapedMono(e: Expr, j: nat, k: nat)
    requires Shaped(e, j) && j <= k
    ensures Shaped(e, k)
  {
  }

  /** Every expression the parser returns respects precedence and left associativity. */
  lemma {:induction false} ExpressionShaped(toks: seq<Token>, pos: nat)
    requires pos <= |toks| && OperatorsLexed(toks)
    ensures var r := Expression(toks, pos); r.Ok? ==> Shaped(r.value.value, 4)
    decreases |toks| - pos, 5
  {
    ClimbShaped(toks, pos, 4);
  }

  lemma {:induction false} ClimbShaped(toks: seq<Token>, pos: nat, level: nat)
    requires pos <= |toks| && 1 <= level <= 4 && OperatorsLexed(toks)
    ensures var r := Climb(toks, pos, level); r.Ok? ==> Shaped(r.value.value, level)
    decreases |toks| - pos, level
  {
    var left := if level == 1 then Primary(toks, pos) else Climb(toks, pos, level - 1);
    if level == 1 {
      PrimaryShaped(toks, pos);
    } else {
      ClimbShaped(toks, pos, level - 1);
    }
    if left.Ok? {
      ShapedMono(left.value.value, level - 1, level);
      ClimbRestShaped(toks, left.value.next, level, left.value.value);
    }
  }

  lemma {:induction false} ClimbRestShaped(toks: seq<Token>, pos: nat, level: nat, left: Expr)
    requires 0 < pos <= |toks| && 1 <= level <= 4 && OperatorsLexed(toks) && Shaped(left, level)
    ensures var r := ClimbRest(toks, pos, level, left); r.Ok? ==> Shaped(r.value.value, level)
    decreases |toks| - pos, level
  {
    if AtOp(toks, pos, level) {
      assert LevelOf(toks[pos].literal) == level;
      var p := Adv(toks, pos, Kind(Operator));
      assert p == pos + 1;
      var right := if level == 1 then Primary(toks, p) else Climb(toks, p, level - 1);
      if level == 1 {
        PrimaryShaped(toks, p);
      } else {
        ClimbShaped(toks, p, level - 1);
      }
      if right.Ok? {
        ClimbRestShaped(toks, right.value.next, level, Binary(toks[pos].literal, left, right.value.value));
      }
    }
  }

  lemma {:induction false} PrimaryShaped(toks: seq<Token>, pos: nat)
    requires pos <= |toks| && OperatorsLexed(toks)
    ensures var r := Primary(toks, pos); r.Ok? ==> Shaped(r.value.value, 0)
    decreases |toks| - pos, 0
  {
    var r := Primary(toks, pos);
    if AtLiteral(toks, pos) {
      var e := LiteralToken(toks, pos);
      assert r == if e.Ok? then Ok(Parsed(e.value, pos + 1)) else Err(e.error);
    } else if At(toks, pos, Lit(")")) {
      assert r.Err?;
    } else if At(toks, pos, Lit("(")) {
      var inner := Expression(toks, pos + 1);
      ExpressionShaped(toks, pos + 1);
      assert r.Ok? ==> inner.Ok? && r.value.value == Group(inner.value.value);
    } else if At(toks, pos, Kind(Identifier)) {
      assert r == Named(toks, pos + 1);
      NamedShaped(toks, pos + 1);
    } else {
      assert r.Err?;
    }
  }

  lemma {:induction false} NamedShaped(toks: seq<Token>, pos: nat)
    requires 0 < pos <= |toks| && OperatorsLexed(toks)
    ensures var r := Named(toks, pos); r.Ok? ==> Shaped(r.value.value, 0)
    decreases |toks| - pos, 0
  {
    if At(toks, pos, Lit("(")) {
      CallArgsShaped(toks, pos + 1, toks[pos - 1].literal);
    } else if At(toks, pos, Lit("[")) {
      ExpressionShaped(toks, pos + 1);
    }
  }

  lemma {:induction false} CallArgsShaped(toks: seq<Token>, pos: nat, name: string)
    requires 0 < pos <= |toks|
    ensures var r := CallArgs(toks, pos, name); r.Ok? ==> Shaped(r.value.value, 0)
  {
    if !At(toks, pos, Lit(",")) && !At(toks, pos, Lit(")")) {
      var first := Expression(toks, pos);
      if first.Ok? {
        CallRestShaped(toks, first.value.next, name, [Access(None, toks[first.value.next - 1].literal)]);
      }
    }
  }

  /** Each call argument becomes a plain access (Parser.java:465-469). */
  lemma {:induction false} CallRestShaped(toks: seq<Token>, pos: nat, name: string, args: seq<Expr>)
    requires 0 < pos <= |toks|
    requires forall a :: a in args ==> a.Access? && a.offset.None?
    ensures var r := CallRest(toks, pos, name, args); r.Ok? ==> Shaped(r.value.value, 0)
    decreases |toks| - pos
  {
    if At(toks, pos, Lit(",")) {
      var e := Expression(toks, pos + 1);
      if e.Ok? {
        CallRestShaped(toks, e.value.next, name, args + [Access(None, toks[e.value.next - 1].literal)]);
      }
    }
  }

  // ---------------------------------------------------------------- blocks and statements

  /**
   * `parseBlock` stops in front of `CASE`, `DEFAULT`, `END` or `ELSE` without consuming
   * it, and appends the statements it parses after those it was given.
   */
  lemma {:induction false} BlockStopsAtTerminator(toks: seq<Token>, pos: nat, acc: seq<Stmt>)
    requires pos <= |toks|
    ensures var r := Block(toks, pos, acc);
      r.Ok? ==> AtBlockEnd(toks, r.value.next) && |acc| <= |r.value.value| && r.value.value[..|acc|] == acc
    decreases |toks| - pos
  {
    if !AtBlockEnd(toks, pos) {
      var s := Statement(toks, pos);
      if s.Ok? {
        BlockStopsAtTerminator(toks, s.value.next, acc + [s.value.value]);
        var r := Block(toks, s.value.next, acc + [s.value.value]);
        if r.Ok? {
          assert r.value.value[..|acc|] == (r.value.value[..|acc| + 1])[..|acc|];
        }
      }
    }
  }

  predicate AtStatementKeyword(toks: seq<Token>, pos: nat)
  {
    At(toks, pos, Lit("LET")) || At(toks, pos, Lit("SWITCH")) || At(toks, pos, Lit("IF"))
    || At(toks, pos, Lit("WHILE")) || At(toks, pos, Lit("RETURN"))
  }

  /**
   * Without a leading keyword, a statement is an expression followed by `=` (an
   * assignment) or not (an expression statement); either way it must end with `;`,
   * and a missing `;` is a ParseException at the previous token.
   */
  lemma ExpressionStatementForms(toks: seq<Token>, pos: nat)
    requires pos <= |toks| && !AtStatementKeyword(toks, pos) && Expression(toks, pos).Ok?
    ensures var e := Expression(toks, pos).value; var r := Statement(toks, pos);
      && (r.Ok? ==> toks[r.value.next - 1].literal == ";")
      && (r.Ok? ==> (r.value.value.Assignment? <==> At(toks, e.next, Lit("="))))
      && (r.Ok? && r.value.value.ExprStmt? ==> r.value.value.expr == e.value && r.value.next == e.next + 1)
      && (!At(toks, e.next, Lit("=")) && !At(toks, e.next, Lit(";")) ==>
            r == Err(ErrorAt("Missing semicolon after statement!", toks, e.next)))
  {
  }

  /** Every case of a `CASE` loop has a match value, in source order after `acc`. */
  lemma {:induction false} CasesValued(toks: seq<Token>, pos: nat, acc: seq<Case>)
    requires pos <= |toks| && forall c :: c in acc ==> c.value.Some?
    ensures var r := Cases(toks, pos, acc);
      r.Ok? ==> (forall c :: c in r.value.value ==> c.value.Some?) && |acc| <= |r.value.value| && r.value.value[..|acc|] == acc
    decreases |toks| - pos
  {
    if At(toks, pos, Lit("CASE")) {
      var c := CaseStmt(toks, pos);
      if c.Ok? {
        CasesValued(toks, c.value.next, acc + [c.value.value]);
        var r := Cases(toks, c.value.next, acc + [c.value.value]);
        if r.Ok? {
          assert r.value.value[..|acc|] == (r.value.value[..|acc| + 1])[..|acc|];
        }
      }
    }
  }

  /**
   * Only the last case of a parsed switch can lack a match value: the `DEFAULT` case is
   * optional and, when present, appended after the `CASE`s.
   */
  lemma SwitchDefaultLast(toks: seq<Token>, pos: nat)
    requires pos <= |toks|
    ensures var r := SwitchStmt(toks, pos);
      r.Ok? ==> forall i :: 0 <= i < |r.value.value.cases| && r.value.value.cases[i].value.None? ==>
                  i == |r.value.value.cases| - 1
  {
    var e := Expression(toks, pos);
    if e.Ok? {
      CasesValued(toks, e.value.next, []);
      var cs := Cases(toks, e.value.next, []);
      if cs.Ok? && At(toks, cs.value.next, Lit("DEFAULT")) {
        var d := CaseStmt(toks, cs.value.next + 1);
        if d.Ok? {
          var all := cs.value.value + [d.value.value];
          assert forall i :: 0 <= i < |all| - 1 ==> all[i] in cs.value.value;
        }
      }
    }
  }

  /** `CASE v :` gives a valued case; a case parsed without `CASE` (the default) has none. */
  lemma CaseValue(toks: seq<Token>, pos: nat)
    requires pos <= |toks|
    ensures var r := CaseStmt(toks, pos); r.Ok? ==> (r.value.value.value.Some? <==> At(toks, pos, Lit("CASE")))
  {
  }

  // ---------------------------------------------------------------- globals and functions

  /** `VAL` globals are immutable and always initialised; `VAR` and `LIST` globals are mutable. */
  lemma GlobalMutability(toks: seq<Token>, pos: nat)
    requires pos <= |toks|
    ensures var r := GlobalDecl(toks, pos);
      r.Ok? ==> ((r.value.value.mutable <==> !At(toks, pos, Lit("VAL")))
                 && (At(toks, pos, Lit("VAL")) || At(toks, pos, Lit("LIST")) ==> r.value.value.value.Some?))
  {
  }

  /** A `VAL` global without `=` after its name and type is a ParseException "Invalid immutable!". */
  lemma ImmutableNeedsInitialiser(toks: seq<Token>, pos: nat)
    requires pos <= |toks| && DeclName(toks, pos, "VAL").Ok?
    ensures var q := ColonType(toks, DeclName(toks, pos, "VAL").value.next).1;
      !At(toks, q, Lit("=")) ==> ImmutableGlobal(toks, pos) == Err(ParseException("Invalid immutable!", toks[q - 1].offset))
  {
  }

  /** A comma in a parameter list must be followed by a parameter name. */
  lemma TrailingCommaInParameters(toks: seq<Token>, pos: nat, names: seq<string>, types: seq<string>)
    requires pos < |toks| && toks[pos].literal == "," && !At(toks, pos + 1, Kind(Identifier))
    ensures ParamsRest(toks, pos, names, types) == Err(ParseException("Trailing comma not allowed!", toks[pos].offset))
  {
  }

  /** A call whose argument list starts with a comma is rejected. */
  lemma TrailingCommaInCall(toks: seq<Token>, pos: nat, name: string)
    requires 0 < pos < |toks| && toks[pos].literal == ","
    ensures CallArgs(toks, pos, name) == Err(ParseException("Trailing comma not allowed!", toks[pos].offset))
  {
  }

  /** The globals of a source come first and its functions after, each list in source order. */
  lemma {:induction false} GlobalsInOrder(toks: seq<Token>, pos: nat, acc: seq<Global>)
    requires pos <= |toks|
    ensures var r := Globals(toks, pos, acc);
      r.Ok? ==> !AtGlobal(toks, r.value.next) && |acc| <= |r.value.value| && r.value.value[..|acc|] == acc
    decreases |toks| - pos
  {
    if AtGlobal(toks, pos) {
      var g := GlobalDecl(toks, pos);
      if g.Ok? {
        GlobalsInOrder(toks, g.value.next, acc + [g.value.value]);
        var r := Globals(toks, g.value.next, acc + [g.value.value]);
        if r.Ok? {
          assert r.value.value[..|acc|] == (r.value.value[..|acc| + 1])[..|acc|];
        }
      }
    }
  }

  lemma {:induction false} FunctionsStop(toks: seq<Token>, pos: nat, acc: seq<Function>)
    requires pos <= |toks|
    ensures var r := Functions(toks, pos, acc);
      r.Ok? ==> && !At(toks, r.value.next, Lit("FUN")) && |acc| <= |r.value.value| && r.value.value[..|acc|] == acc
                && (|r.value.value| == |acc| ==> r.value.next == pos)
    decreases |toks| - pos
  {
    if At(toks, pos, Lit("FUN")) {
      var f := FunctionDecl(toks, pos);
      if f.Ok? {
        FunctionsStop(toks, f.value.next, acc + [f.value.value]);
        var r := Functions(toks, f.value.next, acc + [f.value.value]);
        if r.Ok? {
          assert r.value.value[..|acc|] == (r.value.value[..|acc| + 1])[..|acc|];
        }
      }
    }
  }

  /**
   * `parseSource` ends in front of the first token that does not start a function, and
   * does not require it to be the end of the input: a global declared after the first
   * function is left unparsed.
   */
  lemma SourceStops(toks: seq<Token>)
    ensures var r := SourceDecl(toks, 0);
      r.Ok? ==> && !At(toks, r.value.next, Lit("FUN"))
                && (r.value.value.functions == [] ==> !AtGlobal(toks, r.value.next))
  {
    GlobalsInOrder(toks, 0, []);
    var gs := Globals(toks, 0, []);
    if gs.Ok? {
      FunctionsStop(toks, gs.value.next, []);
    }
  }
}
