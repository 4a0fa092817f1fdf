/**
 * The recursive-descent parser of Parser.java as a class over a mutable token cursor.
 * Every parse method is proved to compute what the matching function of ParserSpec
 * describes: the same node and final cursor, or the same exception.
 */
module Parsing {
  import opened Common
  import opened Ast
  import opened Literals
  import opened ParserSpec

  /** The token list and the cursor into it. */
  class TokenStream {
    const tokens: seq<Token>
    var index: nat

    constructor(tokens: seq<Token>)
      ensures this.tokens == tokens && index == 0
    {
      this.tokens := tokens;
      index := 0;
    }

    /** `has(offset)`: there is a token at `index + offset`. */
    predicate Has(offset: int)
      reads this
    {
      index + offset < |tokens|
    }

    /** `get(offset)`, failing as `List.get` does outside the list. */
    function Get(offset: int): Result<Token, ParseError>
      reads this
    {
      if 0 <= index + offset < |tokens| then Ok(tokens[index + offset])
      else Err(IndexOutOfBounds(index + offset))
    }

    /** `advance()`. */
    method Advance()
      modifies this
      ensures index == old(index) + 1
    {
      index := index + 1;
    }
  }

  /** One round of the parameter loop: a comma, then a name (or the trailing-comma error) and its optional type. */
  lemma ParamsRestStep(toks: seq<Token>, q: nat, names: seq<string>, types: seq<string>)
    requires q <= |toks| && At(toks, q, Lit(","))
    ensures ParamsRest(toks, q, names, types)
      == if !At(toks, q + 1, Kind(Identifier)) then Fail("Trailing comma not allowed!", toks, q + 1)
         else
           var typed := ParamType(toks, q + 2, types);
           ParamsRest(toks, typed.1, names + [toks[q + 1].literal], typed.0)
  { }

  /**
   * One turn of a level's operator loop: `match(OPERATOR)`, the operator taken from the
   * token before the cursor, the right operand (whose error ends the loop), and the rest
   * of the loop.
   */
  lemma ClimbRestStep(toks: seq<Token>, q: nat, level: nat, left: Expr)
    requires 0 < q <= |toks| && 1 <= level <= 4 && AtOp(toks, q, level)
    ensures var p := Adv(toks, q, Kind(Operator));
      var o := if level == 1 then Primary(toks, p) else Climb(toks, p, level - 1);
      ClimbRest(toks, q, level, left)
        == if o.Err? then Err(o.error)
           else ClimbRest(toks, o.value.next, level, Binary(toks[p - 1].literal, left, o.value.value))
  {
  }

  class Parser {
    const tokens: TokenStream

    constructor(toks: seq<Token>)
      ensures fresh(tokens) && tokens.tokens == toks && tokens.index == 0
    {
      tokens := new TokenStream(toks);
    }

    function Toks(): seq<Token>
    {
      tokens.tokens
    }

    ghost predicate Valid()
      reads this, tokens
    {
      tokens.index <= |tokens.tokens|
    }

    /** `peek(patterns)`. */
    method Peek(patterns: seq<Pattern>) returns (b: bool)
      ensures b == PeekAt(Toks(), tokens.index, patterns)
    {
      var i := 0;
      while i < |patterns|
        invariant 0 <= i <= |patterns|
        invariant PeekAt(Toks(), tokens.index, patterns[..i])
      {
        var pattern := patterns[i];
        if !tokens.Has(i) {
          return false;
        }
        var t := tokens.tokens[tokens.index + i];
        match pattern {
          case Kind(k) =>
            if k != t.kind {
              return false;
            }
          case Lit(s) =>
            if s != t.literal {
              return false;
            }
        }
        assert patterns[..i + 1] == patterns[..i] + [pattern];
        i := i + 1;
      }
      assert patterns[..i] == patterns;
      return true;
    }

    /** `match(patterns)`: `peek`, and on success advance past every pattern. */
    method Match(patterns: seq<Pattern>) returns (b: bool)
      modifies tokens
      ensures b == PeekAt(Toks(), old(tokens.index), patterns)
      ensures tokens.index == if b then old(tokens.index) + |patterns| else old(tokens.index)
    {
      b := Peek(patterns);
      if b {
        var i := 0;
        while i < |patterns|
          invariant 0 <= i <= |patterns|
          invariant tokens.index == old(tokens.index) + i
        {
          tokens.Advance();
          i := i + 1;
        }
      }
    }

    /** `match` on one pattern, in the terms of ParserSpec. */
    method MatchOne(p: Pattern) returns (b: bool)
      modifies tokens
      ensures b == At(Toks(), old(tokens.index), p)
      ensures tokens.index == Adv(Toks(), old(tokens.index), p)
    {
      b := Match([p]);
      PeekAtOne(Toks(), old(tokens.index), p);
    }

    /** `peek` on one pattern. */
    method PeekOne(p: Pattern) returns (b: bool)
      ensures b == At(Toks(), tokens.index, p)
    {
      b := Peek([p]);
      PeekAtOne(Toks(), tokens.index, p);
    }

    /** The loop guard `peek(op1) || peek(op2) ...` of precedence level `level`. */
    method PeekOperator(level: nat) returns (b: bool)
      requires 1 <= level <= 4
      ensures b == AtOp(Toks(), tokens.index, level)
    {
      if level == 4 {
        b := PeekOne(Lit("&&"));
        if !b { b := PeekOne(Lit("||")); }
      } else if level == 3 {
        b := PeekOne(Lit("<"));
        if !b { b := PeekOne(Lit(">")); }
        if !b { b := PeekOne(Lit("==")); }
        if !b { b := PeekOne(Lit("!=")); }
      } else if level == 2 {
        b := PeekOne(Lit("+"));
        if !b { b := PeekOne(Lit("-")); }
      } else {
        b := PeekOne(Lit("*"));
        if !b { b := PeekOne(Lit("/")); }
        if !b { b := PeekOne(Lit("^")); }
      }
    }

    // ------------------------------------------------------------ source, globals, functions

    /** `parseSource`. */
    method ParseSource() returns (r: Result<Source, ParseError>)
      requires Valid()
      modifies tokens
      ensures Valid()
      ensures Follows(r, SourceDecl(Toks(), old(tokens.index)), tokens.index)
    {
      var globals: seq<Global> := [];
      var functions: seq<Function> := [];
      var more := PeekGlobal();
      while more
        invariant Valid() && old(tokens.index) <= tokens.index
        invariant more == AtGlobal(Toks(), tokens.index)
        invariant Globals(Toks(), old(tokens.index), []) == Globals(Toks(), tokens.index, globals)
        decreases |Toks()| - tokens.index
      {
        var g :- ParseGlobal();
        globals := globals + [g];
        more := PeekGlobal();
      }
      ghost var functionsStart := tokens.index;
      more := PeekOne(Lit("FUN"));
      while more
        invariant Valid() && functionsStart <= tokens.index
        invariant more == At(Toks(), tokens.index, Lit("FUN"))
        invariant Functions(Toks(), functionsStart, []) == Functions(Toks(), tokens.index, functions)
        decreases |Toks()| - tokens.index
      {
        var f :- ParseFunction();
        functions := functions + [f];
        more := PeekOne(Lit("FUN"));
      }
      r := Ok(Source(globals, functions));
    }

    /** The guard `peek("LIST") || peek("VAR") || peek("VAL")`. */
    method PeekGlobal() returns (b: bool)
      ensures b == AtGlobal(Toks(), tokens.index)
    {
      b := PeekOne(Lit("LIST"));
      if !b { b := PeekOne(Lit("VAR")); }
      if !b { b := PeekOne(Lit("VAL")); }
    }

    /** `parseGlobal`. */
    method ParseGlobal() returns (r: Result<Global, ParseError>)
      requires Valid()
      modifies tokens
      ensures Valid()
      ensures Follows(r, GlobalDecl(Toks(), old(tokens.index)), tokens.index)
    {
      var p := PeekOne(Lit("LIST"));
      if p { r := ParseList(); return; }
      p := PeekOne(Lit("VAR"));
      if p { r := ParseMutable(); return; }
      p := PeekOne(Lit("VAL"));
      if p { r := ParseImmutable(); return; }
      return Err(ErrorHere("Invalid global!"));
    }

    /** `match(keyword); match(IDENTIFIER); tokens.get(-1)`. */
    method ParseDeclName(keyword: string) returns (r: Result<Token, ParseError>)
      requires Valid()
      modifies tokens
      ensures Valid()
      ensures Follows(r, DeclName(Toks(), old(tokens.index), keyword), tokens.index)
    {
      var m := MatchOne(Lit(keyword));
      m := MatchOne(Kind(Identifier));
      r := tokens.Get(-1);
    }

    /** An optional `: Type` whose type is taken only when an identifier follows the colon. */
    method ParseOptionalType() returns (typeName: Option<string>)
      requires Valid()
      modifies tokens
      ensures Valid()
      ensures (typeName, tokens.index) == OptionalType(Toks(), old(tokens.index))
    {
      typeName := None;
      var m := MatchOne(Lit(":"));
      if m {
        m := MatchOne(Kind(Identifier));
        if m {
          var ty := tokens.Get(-1).value;
          typeName := Some(ty.literal);
        }
      }
    }

    /** An optional `: Type` whose type is the last token consumed after the colon. */
    method ParseColonType() returns (typeName: Option<string>)
      requires Valid() && 0 < tokens.index
      modifies tokens
      ensures Valid()
      ensures (typeName, tokens.index) == ColonType(Toks(), old(tokens.index))
    {
      typeName := None;
      var m := MatchOne(Lit(":"));
      if m {
        m := MatchOne(Kind(Identifier));
        var ty := tokens.Get(-1).value;
        typeName := Some(ty.literal);
      }
    }

    /** `parseList`. */
    method ParseList() returns (r: Result<Global, ParseError>)
      requires Valid()
      modifies tokens
      ensures Valid()
      ensures Follows(r, ListGlobal(Toks(), old(tokens.index)), tokens.index)
    {
      var lit :- ParseDeclName("LIST");
      var typeName := ParseOptionalType();
      r := ParseListBody(lit.literal, typeName);
    }

    /** The initialiser `= [ expr, ... ]` of a list: only the first element is kept. */
    method ParseListBody(name: string, typeName: Option<string>) returns (r: Result<Global, ParseError>)
      requires Valid() && 0 < tokens.index
      modifies tokens
      ensures Valid()
      ensures Follows(r, ListBody(Toks(), old(tokens.index), name, typeName), tokens.index)
    {
      var m := MatchOne(Lit("="));
      if !m { return Err(ErrorHere("Invalid list!")); }
      m := MatchOne(Lit("["));
      if !m { return Err(ErrorHere("Invalid list! Missing opening bracket")); }
      var exp :- ParseExpression();
      var rest :- ParseListRest();
      m := MatchOne(Lit("]"));
      if !m { return Err(ErrorHere("No closing bracket for list!")); }
      return Ok(Global(name, typeName, true, Some(exp)));
    }

    /** The `while (match(","))` loop of a list; the elements it parses are returned, not kept. */
    method ParseListRest() returns (r: Result<seq<Expr>, ParseError>)
      requires Valid()
      modifies tokens
      ensures Valid()
      ensures Follows(r, ListRest(Toks(), old(tokens.index), []), tokens.index)
    {
      var rest: seq<Expr> := [];
      ghost var loopStart := tokens.index;
      var m := MatchOne(Lit(","));
      while m
        invariant Valid() && old(tokens.index) <= loopStart
        invariant m == At(Toks(), loopStart, Lit(",")) && tokens.index == Adv(Toks(), loopStart, Lit(","))
        invariant ListRest(Toks(), old(tokens.index), []) == ListRest(Toks(), loopStart, rest)
        decreases |Toks()| - tokens.index
      {
        var e :- ParseExpression();
        rest := rest + [e];
        loopStart := tokens.index;
        m := MatchOne(Lit(","));
      }
      return Ok(rest);
    }

    /** `parseMutable`. */
    method ParseMutable() returns (r: Result<Global, ParseError>)
      requires Valid()
      modifies tokens
      ensures Valid()
      ensures Follows(r, MutableGlobal(Toks(), old(tokens.index)), tokens.index)
    {
      var token :- ParseDeclName("VAR");
      var typeName := ParseOptionalType();
      var m := MatchOne(Lit("="));
      if m {
        var exp :- ParseExpression();
        return Ok(Global(token.literal, typeName, true, Some(exp)));
      }
      return Ok(Global(token.literal, typeName, true, None));
    }

    /** `parseImmutable`. */
    method ParseImmutable() returns (r: Result<Global, ParseError>)
      requires Valid()
      modifies tokens
      ensures Valid()
      ensures Follows(r, ImmutableGlobal(Toks(), old(tokens.index)), tokens.index)
    {
      var token :- ParseDeclName("VAL");
      var typeName := ParseColonType();
      var m := MatchOne(Lit("="));
      if !m { return Err(ErrorHere("Invalid immutable!")); }
      var exp :- ParseExpression();
      return Ok(Global(token.literal, typeName, false, Some(exp)));
    }

    /** A parameter's optional type, appended to `paramTypes` when present. */
    method ParseParameterType(paramTypes: seq<string>) returns (types: seq<string>)
      requires Valid()
      modifies tokens
      ensures Valid()
      ensures (types, tokens.index) == ParamType(Toks(), old(tokens.index), paramTypes)
    {
      var typeName := ParseOptionalType();
      types := if typeName.Some? then paramTypes + [typeName.value] else paramTypes;
    }

    /** The parameter list of `parseFunction`, after `(`. */
    method ParseParameters() returns (r: Result<(seq<string>, seq<string>), ParseError>)
      requires Valid()
      modifies tokens
      ensures Valid()
      ensures Follows(r, Params(Toks(), old(tokens.index)), tokens.index)
    {
      var m := MatchOne(Kind(Identifier));
      if m {
        var p := tokens.Get(-1).value;
        var paramTypes := ParseParameterType([]);
        r := ParseMoreParameters([p.literal], paramTypes);
      } else {
        r := Ok(([], []));
      }
    }

    /** The `while (match(","))` loop of `parseFunction`'s parameter list. */
    method ParseMoreParameters(names: seq<string>, types: seq<string>)
      returns (r: Result<(seq<string>, seq<string>), ParseError>)
      requires Valid()
      modifies tokens
      ensures Valid()
      ensures Follows(r, ParamsRest(Toks(), old(tokens.index), names, types), tokens.index)
    {
      var parameters, paramTypes := names, types;
      ghost var loopStart := tokens.index;
      var m := MatchOne(Lit(","));
      while m
        invariant Valid() && old(tokens.index) <= loopStart
        invariant m == At(Toks(), loopStart, Lit(",")) && tokens.index == Adv(Toks(), loopStart, Lit(","))
        invariant ParamsRest(Toks(), old(tokens.index), names, types) == ParamsRest(Toks(), loopStart, parameters, paramTypes)
        decreases |Toks()| - tokens.index
      {
        ParamsRestStep(Toks(), loopStart, parameters, paramTypes);
        m := MatchOne(Kind(Identifier));
        if !m { return Err(ErrorHere("Trailing comma not allowed!")); }
        var p := tokens.Get(-1).value;
        parameters := parameters + [p.literal];
        paramTypes := ParseParameterType(paramTypes);
        loopStart := tokens.index;
        m := MatchOne(Lit(","));
      }
      return Ok((parameters, paramTypes));
    }

    /** `parseFunction`. */
    method ParseFunction() returns (r: Result<Function, ParseError>)
      requires Valid()
      modifies tokens
      ensures Valid()
      ensures Follows(r, FunctionDecl(Toks(), old(tokens.index)), tokens.index)
    {
      var name :- ParseDeclName("FUN");
      r := ParseFunctionRest(name.literal);
    }

    /** The part of `parseFunction` after the name: `(`, the parameters and `)`, then the body. */
    method ParseFunctionRest(name: string) returns (r: Result<Function, ParseError>)
      requires Valid()
      modifies tokens
      ensures Valid()
      ensures Follows(r, FunctionRest(Toks(), old(tokens.index), name), tokens.index)
    {
      var m := MatchOne(Lit("("));
      if !m { return Err(ErrorHere("Missing opening parenthesis")); }
      ghost var paramsStart := tokens.index;
      var ps :- ParseParameters();
      assert Params(Toks(), paramsStart) == Ok(Parsed(ps, tokens.index));
      m := MatchOne(Lit(")"));
      if !m { return Err(ErrorHere("Missing matching closing parenthesis")); }
      r := ParseFunctionBody(name, ps.0, ps.1);
    }

    /** The part of `parseFunction` after the parameter list. */
    method ParseFunctionBody(name: string, parameters: seq<string>, paramTypes: seq<string>)
      returns (r: Result<Function, ParseError>)
      requires Valid() && 0 < tokens.index
      modifies tokens
      ensures Valid()
      ensures Follows(r, FunctionBody(Toks(), old(tokens.index), name, parameters, paramTypes), tokens.index)
    {
      var returnType := ParseColonType();
      var m := MatchOne(Lit("DO"));
      if !m { return Err(ErrorHere("Invalid function!")); }
      var statements :- ParseBlock();
      m := MatchOne(Lit("END"));
      if !m { return Err(ErrorHere("Invalid function!")); }
      if returnType.None? { return Err(NullPointer); }
      return Ok(Function(name, parameters, paramTypes, returnType, statements));
    }

    // ------------------------------------------------------------ expressions

    /** `parseExpression`. */
    method ParseExpression() returns (r: Result<Expr, ParseError>)
      requires Valid()
      modifies tokens
      ensures Valid()
      ensures Follows(r, Expression(Toks(), old(tokens.index)), tokens.index)
      decreases |Toks()| - tokens.index, 5
    {
      r := ParseLogicalExpression();
    }

    /** `parseLogicalExpression`: `&&` and `||`. */
    method ParseLogicalExpression() returns (r: Result<Expr, ParseError>)
      requires Valid()
      modifies tokens
      ensures Valid()
      ensures Follows(r, Climb(Toks(), old(tokens.index), 4), tokens.index)
      decreases |Toks()| - tokens.index, 4
    {
      ghost var start := tokens.index;
      var left :- ParseComparisonExpression();
      var more := PeekOperator(4);
      while more
        invariant Valid() && start < tokens.index
        invariant more == AtOp(Toks(), tokens.index, 4)
        invariant Climb(Toks(), start, 4) == ClimbRest(Toks(), tokens.index, 4, left)
        decreases |Toks()| - tokens.index
      {
        var _ := MatchOne(Kind(Operator));
        var t := tokens.Get(-1).value;
        var right :- ParseComparisonExpression();
        left := Binary(t.literal, left, right);
        more := PeekOperator(4);
      }
      r := Ok(left);
    }

    /** `parseComparisonExpression`: `<`, `>`, `==`, `!=`. */
    method ParseComparisonExpression() returns (r: Result<Expr, ParseError>)
      requires Valid()
      modifies tokens
      ensures Valid()
      ensures Follows(r, Climb(Toks(), old(tokens.index), 3), tokens.index)
      decreases |Toks()| - tokens.index, 3
    {
      ghost var start := tokens.index;
      var left :- ParseAdditiveExpression();
      var more := PeekOperator(3);
      while more
        invariant Valid() && start < tokens.index
        invariant more == AtOp(Toks(), tokens.index, 3)
        invariant Climb(Toks(), start, 3) == ClimbRest(Toks(), tokens.index, 3, left)
        decreases |Toks()| - tokens.index
      {
        var _ := MatchOne(Kind(Operator));
        var t := tokens.Get(-1).value;
        var right :- ParseAdditiveExpression();
        left := Binary(t.literal, left, right);
        more := PeekOperator(3);
      }
      r := Ok(left);
    }

    /** `parseAdditiveExpression`: `+` and `-`. */
    method ParseAdditiveExpression() returns (r: Result<Expr, ParseError>)
      requires Valid()
      modifies tokens
      ensures Valid()
      ensures Follows(r, Climb(Toks(), old(tokens.index), 2), tokens.index)
      decreases |Toks()| - tokens.index, 2
    {
      ghost var start := tokens.index;
      var left :- ParseMultiplicativeExpression();
      var more := PeekOperator(2);
      while more
        invariant Valid() && start < tokens.index
        invariant more == AtOp(Toks(), tokens.index, 2)
        invariant Climb(Toks(), start, 2) == ClimbRest(Toks(), tokens.index, 2, left)
        decreases |Toks()| - tokens.index
      {
        var _ := MatchOne(Kind(Operator));
        var t := tokens.Get(-1).value;
        var right :- ParseMultiplicativeExpression();
        left := Binary(t.literal, left, right);
        more := PeekOperator(2);
      }
      r := Ok(left);
    }

    /** `parseMultiplicativeExpression`: `*`, `/` and `^`. */
    method ParseMultiplicativeExpression() returns (r: Result<Expr, ParseError>)
      requires Valid()
      modifies tokens
      ensures Valid()
      ensures Follows(r, Climb(Toks(), old(tokens.index), 1), tokens.index)
      decreases |Toks()| - tokens.index, 1
    {
      ghost var start := tokens.index;
      var left :- ParsePrimaryExpression();
      var more := PeekOperator(1);
      while more
        invariant Valid() && start < tokens.index
        invariant more == AtOp(Toks(), tokens.index, 1)
        invariant Climb(Toks(), start, 1) == ClimbRest(Toks(), tokens.index, 1, left)
        decreases |Toks()| - tokens.index
      {
        ClimbRestStep(Toks(), tokens.index, 1, left);
        var _ := MatchOne(Kind(Operator));
        var t := tokens.Get(-1).value;
        var right :- ParsePrimaryExpression();
        left := Binary(t.literal, left, right);
        more := PeekOperator(1);
      }
      r := Ok(left);
    }

    /** `parsePrimaryExpression`. */
    method ParsePrimaryExpression() returns (r: Result<Expr, ParseError>)
      requires Valid()
      modifies tokens
      ensures Valid()
      ensures Follows(r, Primary(Toks(), old(tokens.index)), tokens.index)
      decreases |Toks()| - tokens.index, 0
    {
      var isLiteral := PeekLiteral();
      if isLiteral {
        r := ParseLiteralToken();
        return;
      }
      var m := MatchOne(Lit(")"));
      if m { return Err(ErrorHere("Invalid closing parenthesis!")); }
      m := MatchOne(Lit("("));
      if m {
        var e :- ParseExpression();
        m := MatchOne(Lit(")"));
        if !m { return Err(ErrorHere("Missing closing parenthesis!")); }
        return Ok(Group(e));
      }
      m := MatchOne(Kind(Identifier));
      if !m { return Err(ErrorHere("Invalid expression!")); }
      r := ParseNamed();
    }

    /** Whether one of the literal branches of `parsePrimaryExpression` applies. */
    method PeekLiteral() returns (b: bool)
      ensures b == AtLiteral(Toks(), tokens.index)
    {
      b := PeekOne(Lit("TRUE"));
      if !b { b := PeekOne(Lit("NIL")); }
      if !b { b := PeekOne(Lit("FALSE")); }
      if !b { b := PeekOne(Kind(Integer)); }
      if !b { b := PeekOne(Kind(Decimal)); }
      if !b { b := PeekOne(Kind(Character)); }
      if !b { b := PeekOne(Kind(String)); }
    }

    /** The literal branches of `parsePrimaryExpression`: match the token and decode its text. */
    method ParseLiteralToken() returns (r: Result<Expr, ParseError>)
      requires Valid() && AtLiteral(Toks(), tokens.index)
      modifies tokens
      ensures Valid() && tokens.index == old(tokens.index) + 1
      ensures r == LiteralToken(Toks(), old(tokens.index))
    {
      var m := MatchOne(Lit("TRUE"));
      if m { return Ok(Literal(LBool(true))); }
      m := MatchOne(Lit("NIL"));
      if m { return Ok(Literal(LNil)); }
      m := MatchOne(Lit("FALSE"));
      if m { return Ok(Literal(LBool(false))); }
      m := MatchOne(Kind(Integer));
      if m {
        var t := tokens.Get(-1).value;
        var i :- Decoded(IntegerValue(t.literal));
        return Ok(Literal(LInt(i)));
      }
      m := MatchOne(Kind(Decimal));
      if m {
        var t := tokens.Get(-1).value;
        var d :- Decoded(DecimalValue(t.literal));
        return Ok(Literal(LDec(d)));
      }
      m := MatchOne(Kind(Character));
      if m {
        var t := tokens.Get(-1).value;
        var c :- Decoded(CharValue(t.literal));
        return Ok(Literal(LChar(c)));
      }
      m := MatchOne(Kind(String));
      var t := tokens.Get(-1).value;
      var s :- Decoded(StringValue(t.literal));
      return Ok(Literal(LStr(s)));
    }

    /** The identifier branch of `parsePrimaryExpression`, after the identifier was matched. */
    method ParseNamed() returns (r: Result<Expr, ParseError>)
      requires Valid() && 0 < tokens.index
      modifies tokens
      ensures Valid()
      ensures Follows(r, Named(Toks(), old(tokens.index)), tokens.index)
      decreases |Toks()| - tokens.index, 0
    {
      ghost var start := tokens.index;
      var t := tokens.Get(-1).value;
      var m := MatchOne(Lit("("));
      if m {
        r := ParseCallArguments(t.literal);
        return;
      }
      var bracket := PeekOne(Lit("["));
      if bracket {
        var lit := tokens.Get(-1).value;
        m := MatchOne(Lit("["));
        var e :- ParseExpression();
        m := MatchOne(Lit("]"));
        if !m { return Err(ErrorHere("No closing bracket for function!")); }
        return Ok(Access(Some(e), lit.literal));
      }
      var lit := tokens.Get(-1).value;
      return Ok(Access(None, lit.literal));
    }

    /** The arguments of a call to `name`, after its `(`. */
    method ParseCallArguments(name: string) returns (r: Result<Expr, ParseError>)
      requires Valid() && 0 < tokens.index
      modifies tokens
      ensures Valid()
      ensures Follows(r, CallArgs(Toks(), old(tokens.index), name), tokens.index)
      decreases |Toks()| - tokens.index, 6
    {
      ghost var start := tokens.index;
      var arguments: seq<Expr> := [];
      var m := MatchOne(Lit(","));
      if m { return Err(ErrorHere("Trailing comma not allowed!")); }
      m := MatchOne(Lit(")"));
      if m { return Ok(Call(name, arguments)); }
      var first :- ParseExpression();
      var last := tokens.Get(-1).value;
      r := ParseCallRest(name, [Access(None, last.literal)]);
    }

    /** The `while (match(","))` argument loop of a call and the closing `)`. */
    method ParseCallRest(name: string, arguments: seq<Expr>) returns (r: Result<Expr, ParseError>)
      requires Valid() && 0 < tokens.index
      modifies tokens
      ensures Valid()
      ensures Follows(r, CallRest(Toks(), old(tokens.index), name, arguments), tokens.index)
      decreases |Toks()| - tokens.index, 0
    {
      var args := arguments;
      ghost var loopStart := tokens.index;
      var m := MatchOne(Lit(","));
      while m
        invariant Valid() && old(tokens.index) <= loopStart
        invariant m == At(Toks(), loopStart, Lit(",")) && tokens.index == Adv(Toks(), loopStart, Lit(","))
        invariant CallRest(Toks(), old(tokens.index), name, arguments) == CallRest(Toks(), loopStart, name, args)
        decreases |Toks()| - tokens.index
      {
        var arg :- ParseExpression();
        var last := tokens.Get(-1).value;
        args := args + [Access(None, last.literal)];
        loopStart := tokens.index;
        m := MatchOne(Lit(","));
      }
      m := MatchOne(Lit(")"));
      if !m { return Err(ErrorHere("No closing parenthesis for function!")); }
      m := MatchOne(Lit(","));
      if m { return Err(ErrorHere("Trailing comma not allowed!")); }
      return Ok(Call(name, args));
    }

    // ------------------------------------------------------------ statements

    /** The guard of `parseBlock`'s loop, negated: the next token ends the block. */
    method PeekBlockEnd() returns (b: bool)
      ensures b == AtBlockEnd(Toks(), tokens.index)
    {
      b := PeekOne(Lit("CASE"));
      if !b { b := PeekOne(Lit("DEFAULT")); }
      if !b { b := PeekOne(Lit("END")); }
      if !b { b := PeekOne(Lit("ELSE")); }
    }

    /** `parseBlock`. */
    method ParseBlock() returns (r: Result<seq<Stmt>, ParseError>)
      requires Valid()
      modifies tokens
      ensures Valid()
      ensures Follows(r, Block(Toks(), old(tokens.index), []), tokens.index)
      decreases |Toks()| - tokens.index, 8
    {
      var statements: seq<Stmt> := [];
      var done := PeekBlockEnd();
      while !done
        invariant Valid() && old(tokens.index) <= tokens.index
        invariant done == AtBlockEnd(Toks(), tokens.index)
        invariant Block(Toks(), old(tokens.index), []) == Block(Toks(), tokens.index, statements)
        decreases |Toks()| - tokens.index
      {
        var s :- ParseStatement();
        statements := statements + [s];
        done := PeekBlockEnd();
      }
      r := Ok(statements);
    }

    /** `parseStatement`. */
    method ParseStatement() returns (r: Result<Stmt, ParseError>)
      requires Valid()
      modifies tokens
      ensures Valid()
      ensures Follows(r, Statement(Toks(), old(tokens.index)), tokens.index)
      decreases |Toks()| - tokens.index, 7
    {
      var m := MatchOne(Lit("LET"));
      if m { r := ParseDeclarationStatement(); return; }
      m := MatchOne(Lit("SWITCH"));
      if m { r := ParseSwitchStatement(); return; }
      m := MatchOne(Lit("IF"));
      if m { r := ParseIfStatement(); return; }
      m := MatchOne(Lit("WHILE"));
      if m { r := ParseWhileStatement(); return; }
      m := MatchOne(Lit("RETURN"));
      if m { r := ParseReturnStatement(); return; }
      var exp :- ParseExpression();
      m := MatchOne(Lit("="));
      if m {
        var other :- ParseExpression();
        m := MatchOne(Lit(";"));
        if !m { return Err(ErrorHere("Missing semicolon after statement!")); }
        return Ok(Assignment(exp, other));
      }
      m := MatchOne(Lit(";"));
      if !m { return Err(ErrorHere("Missing semicolon after statement!")); }
      return Ok(ExprStmt(exp));
    }

    /** `parseDeclarationStatement`, after `LET`. */
    method ParseDeclarationStatement() returns (r: Result<Stmt, ParseError>)
      requires Valid()
      modifies tokens
      ensures Valid()
      ensures Follows(r, DeclarationStmt(Toks(), old(tokens.index)), tokens.index)
      decreases |Toks()| - tokens.index, 6
    {
      var m := MatchOne(Kind(Identifier));
      if !m { return Err(ErrorHere("Invalid statement!")); }
      var t := tokens.Get(-1).value;
      var typeName := ParseColonType();
      assert DeclarationStmt(Toks(), old(tokens.index)) == DeclarationTail(Toks(), tokens.index, t.literal, typeName);
      m := MatchOne(Lit(";"));
      if m {
        if typeName.None? { return Err(NullPointer); }
        return Ok(Declaration(t.literal, typeName, None));
      }
      var last := tokens.Get(-1).value;
      m := MatchOne(Lit("="));
      if m {
        var other :- ParseExpression();
        m := MatchOne(Lit(";"));
        if !m { return Err(ErrorHere("Missing semicolon after statement!")); }
        return Ok(Declaration(last.literal, typeName, Some(other)));
      }
      return Err(ParseException("Invalid declaration statement!", tokens.index));
    }

    /** `parseIfStatement`, after `IF`. */
    method ParseIfStatement() returns (r: Result<Stmt, ParseError>)
      requires Valid()
      modifies tokens
      ensures Valid()
      ensures Follows(r, IfStmt(Toks(), old(tokens.index)), tokens.index)
      decreases |Toks()| - tokens.index, 6
    {
      var exp :- ParseExpression();
      var m := MatchOne(Lit("DO"));
      if !m { return Err(ErrorHere("Invalid if statement!")); }
      var statements :- ParseBlock();
      var elseStatements: seq<Stmt> := [];
      m := MatchOne(Lit("ELSE"));
      if m {
        elseStatements :- ParseBlock();
      }
      m := MatchOne(Lit("END"));
      if !m { return Err(ErrorHere("Invalid if statement!")); }
      return Ok(If(exp, statements, elseStatements));
    }

    /** `parseSwitchStatement`, after `SWITCH`. */
    method ParseSwitchStatement() returns (r: Result<Stmt, ParseError>)
      requires Valid()
      modifies tokens
      ensures Valid()
      ensures Follows(r, SwitchStmt(Toks(), old(tokens.index)), tokens.index)
      decreases |Toks()| - tokens.index, 6
    {
      var exp :- ParseExpression();
      ghost var casesStart := tokens.index;
      var cases: seq<Case> := [];
      var more := PeekOne(Lit("CASE"));
      while more
        invariant Valid() && old(tokens.index) < casesStart <= tokens.index
        invariant more == At(Toks(), tokens.index, Lit("CASE"))
        invariant Cases(Toks(), casesStart, []) == Cases(Toks(), tokens.index, cases)
        decreases |Toks()| - tokens.index
      {
        var c :- ParseCaseStatement();
        cases := cases + [c];
        more := PeekOne(Lit("CASE"));
      }
      var m := MatchOne(Lit("DEFAULT"));
      if m {
        var c :- ParseCaseStatement();
        cases := cases + [c];
      }
      m := MatchOne(Lit("END"));
      if !m { return Err(ErrorHere("Invalid switch statement!")); }
      return Ok(Switch(exp, cases));
    }

    /** `parseCaseStatement`. */
    method ParseCaseStatement() returns (r: Result<Case, ParseError>)
      requires Valid()
      modifies tokens
      ensures Valid()
      ensures Follows(r, CaseStmt(Toks(), old(tokens.index)), tokens.index)
      decreases |Toks()| - tokens.index, 9
    {
      var m := MatchOne(Lit("CASE"));
      if m {
        var exp :- ParseExpression();
        m := MatchOne(Lit(":"));
        if !m { return Err(ErrorHere("Invalid case statement!")); }
        var statements :- ParseBlock();
        return Ok(Case(Some(exp), statements));
      }
      var statements :- ParseBlock();
      return Ok(Case(None, statements));
    }

    /** `parseWhileStatement`, after `WHILE`. */
    method ParseWhileStatement() returns (r: Result<Stmt, ParseError>)
      requires Valid()
      modifies tokens
      ensures Valid()
      ensures Follows(r, WhileStmt(Toks(), old(tokens.index)), tokens.index)
      decreases |Toks()| - tokens.index, 6
    {
      var exp :- ParseExpression();
      var m := MatchOne(Lit("DO"));
      if !m { return Err(ErrorHere("Invalid while statement!")); }
      var statements :- ParseBlock();
      m := MatchOne(Lit("END"));
      if !m { return Err(ErrorHere("Invalid while statement!")); }
      return Ok(While(exp, statements));
    }

    /** `parseReturnStatement`, after `RETURN`. */
    method ParseReturnStatement() returns (r: Result<Stmt, ParseError>)
      requires Valid()
      modifies tokens
      ensures Valid()
      ensures Follows(r, ReturnStmt(Toks(), old(tokens.index)), tokens.index)
      decreases |Toks()| - tokens.index, 6
    {
      var exp :- ParseExpression();
      var m := MatchOne(Lit(";"));
      if !m { return Err(ErrorHere("Missing semicolon after statement!")); }
      return Ok(Return(exp));
    }

    /** `new ParseException(msg, tokens.get(-1).getIndex())`, or the failure of `get(-1)`. */
    function ErrorHere(msg: string): (e: ParseError)
      requires Valid()
      reads this, tokens
      ensures e == ErrorAt(msg, Toks(), tokens.index)
    {
      match tokens.Get(-1)
      case Ok(t) => ParseException(msg, t.offset)
      case Err(failure) => failure
    }
  }
}
