/**
 * A functional reading of the recursive-descent parser in Parser.java. Each function
 * takes the token list and the cursor position and returns the parsed node with the
 * position after it, or the exception the Java method throws. The imperative
 * `Parser` class (module Parsing) is proved to compute exactly these results.
 */
module ParserSpec {
  import opened Common
  import opened Ast
  import opened Literals

  /** The exceptions the parser can raise. */
  datatype ParseError =
    | ParseException(message: string, offset: int)
    | IndexOutOfBounds(index: int)
    | NullPointer
    | LiteralFailure(cause: LiteralError)

  /** A `peek`/`match` pattern: an exact literal (a Java `String`) or a token kind. */
  datatype Pattern = Lit(text: string) | Kind(kind: TokenKind)

  datatype Parsed<+T> = Parsed(value: T, next: nat)

  type PResult<T> = Result<Parsed<T>, ParseError>

  /**
   * A Java parse method that returned `r` and left the cursor at `index` did what
   * `spec` describes: the same node and cursor, or the same exception.
   */
  predicate Follows<T(==)>(r: Result<T, ParseError>, spec: PResult<T>, index: nat)
  {
    match spec
    case Ok(p) => r == Ok(p.value) && index == p.next
    case Err(e) => r == Err(e)
  }

  predicate Matches(p: Pattern, t: Token)
  {
    match p
    case Lit(s) => t.literal == s
    case Kind(k) => t.kind == k
  }

  /** `peek(patterns)` at cursor `pos`: every pattern matches the token at its offset. */
  predicate PeekAt(toks: seq<Token>, pos: nat, ps: seq<Pattern>)
  {
    forall i {:trigger ps[i]} :: 0 <= i < |ps| ==> pos + i < |toks| && Matches(ps[i], toks[pos + i])
  }

  lemma PeekAtOne(toks: seq<Token>, pos: nat, p: Pattern)
    ensures PeekAt(toks, pos, [p]) <==> At(toks, pos, p)
  {
    assert [p][0] == p;
  }

  /** `peek(p)` for a single pattern. */
  predicate At(toks: seq<Token>, pos: nat, p: Pattern)
  {
    pos < |toks| && Matches(p, toks[pos])
  }

  /** The cursor after `match(p)`. */
  function Adv(toks: seq<Token>, pos: nat, p: Pattern): nat
  {
    if At(toks, pos, p) then pos + 1 else pos
  }

  /** `tokens.get(-1)`. */
  function Prev(toks: seq<Token>, pos: nat): Result<Token, ParseError>
    requires pos <= |toks|
  {
    if pos == 0 then Err(IndexOutOfBounds(-1)) else Ok(toks[pos - 1])
  }

  /**
   * `throw new ParseException(msg, tokens.get(-1).getIndex())`: the offset is that of
   * the previously consumed token; at the very start `get(-1)` itself fails.
   */
  function ErrorAt(msg: string, toks: seq<Token>, pos: nat): ParseError
    requires pos <= |toks|
  {
    if pos == 0 then IndexOutOfBounds(-1) else ParseException(msg, toks[pos - 1].offset)
  }

  function Fail<T>(msg: string, toks: seq<Token>, pos: nat): PResult<T>
    requires pos <= |toks|
  {
    Err(ErrorAt(msg, toks, pos))
  }

  function Decoded<T>(r: Result<T, LiteralError>): Result<T, ParseError>
  {
    match r
    case Ok(v) => Ok(v)
    case Err(e) => Err(LiteralFailure(e))
  }

  // ---------------------------------------------------------------- expressions

  /** The operators folded at each precedence level, from multiplicative (1) to logical (4). */
  function Ops(level: nat): set<string>
  {
    if level == 4 then {"&&", "||"}
    else if level == 3 then {"<", ">", "==", "!="}
    else if level == 2 then {"+", "-"}
    else if level == 1 then {"*", "/", "^"}
    else {}
  }

  predicate AtOp(toks: seq<Token>, pos: nat, level: nat)
  {
    pos < |toks| && toks[pos].literal in Ops(level)
  }

  /** `parseExpression`, which is `parseLogicalExpression`. */
  function Expression(toks: seq<Token>, pos: nat): (r: PResult<Expr>)
    requires pos <= |toks|
    ensures r.Ok? ==> pos < r.value.next <= |toks|
    decreases |toks| - pos, 5
  {
    Climb(toks, pos, 4)
  }

  /**
   * The precedence level `level`: parseLogical (4), parseComparison (3), parseAdditive (2)
   * and parseMultiplicative (1). One operand of the next tighter level, then the loop.
   */
  function Climb(toks: seq<Token>, pos: nat, level: nat): (r: PResult<Expr>)
    requires pos <= |toks| && 1 <= level <= 4
    ensures r.Ok? ==> pos < r.value.next <= |toks|
    decreases |toks| - pos, level
  {
    var left :- if level == 1 then Primary(toks, pos) else Climb(toks, pos, level - 1);
    ClimbRest(toks, left.next, level, left.value)
  }

  /**
   * The `while (peek(op) || ...)` loop of one level: while the next token is one of the
   * level's operators, `match(OPERATOR)`, take `tokens.get(-1)` as the operator, parse
   * the right operand and fold it onto `left`.
   */
  function ClimbRest(toks: seq<Token>, pos: nat, level: nat, left: Expr): (r: PResult<Expr>)
    requires 0 < pos <= |toks| && 1 <= level <= 4
    ensures r.Ok? ==> pos <= r.value.next <= |toks|
    decreases |toks| - pos, level
  {
    if !AtOp(toks, pos, level) then Ok(Parsed(left, pos))
    else
      var p := Adv(toks, pos, Kind(Operator));
      var op := toks[p - 1].literal;
      var right :- if level == 1 then Primary(toks, p) else Climb(toks, p, level - 1);
      ClimbRest(toks, right.next, level, Binary(op, left, right.value))
  }

  /** `parsePrimaryExpression`. */
  function Primary(toks: seq<Token>, pos: nat): (r: PResult<Expr>)
    requires pos <= |toks|
    ensures r.Ok? ==> pos < r.value.next <= |toks|
    decreases |toks| - pos, 0
  {
    if AtLiteral(toks, pos) then
      var e :- LiteralToken(toks, pos);
      Ok(Parsed(e, pos + 1))
    else if At(toks, pos, Lit(")")) then Fail("Invalid closing parenthesis!", toks, pos + 1)
    else if At(toks, pos, Lit("(")) then
      var e :- Expression(toks, pos + 1);
      if At(toks, e.next, Lit(")")) then Ok(Parsed(Group(e.value), e.next + 1))
      else Fail("Missing closing parenthesis!", toks, e.next)
    else if At(toks, pos, Kind(Identifier)) then Named(toks, pos + 1)
    else Fail("Invalid expression!", toks, pos)
  }

  /** The tokens that are literal expressions on their own: keywords and literal kinds. */
  predicate AtLiteral(toks: seq<Token>, pos: nat)
  {
    At(toks, pos, Lit("TRUE")) || At(toks, pos, Lit("NIL")) || At(toks, pos, Lit("FALSE"))
    || At(toks, pos, Kind(Integer)) || At(toks, pos, Kind(Decimal))
    || At(toks, pos, Kind(Character)) || At(toks, pos, Kind(String))
  }

  /** The literal branches of `parsePrimaryExpression`; the token text is decoded by its kind. */
  function LiteralToken(toks: seq<Token>, pos: nat): (r: Result<Expr, ParseError>)
    requires AtLiteral(toks, pos)
    ensures r.Ok? ==> r.value.Literal?
  {
    if At(toks, pos, Lit("TRUE")) then Ok(Literal(LBool(true)))
    else if At(toks, pos, Lit("NIL")) then Ok(Literal(LNil))
    else if At(toks, pos, Lit("FALSE")) then Ok(Literal(LBool(false)))
    else if At(toks, pos, Kind(Integer)) then
      var i :- Decoded(IntegerValue(toks[pos].literal));
      Ok(Literal(LInt(i)))
    else if At(toks, pos, Kind(Decimal)) then
      var d :- Decoded(DecimalValue(toks[pos].literal));
      Ok(Literal(LDec(d)))
    else if At(toks, pos, Kind(Character)) then
      var c :- Decoded(CharValue(toks[pos].literal));
      Ok(Literal(LChar(c)))
    else
      var s :- Decoded(StringValue(toks[pos].literal));
      Ok(Literal(LStr(s)))
  }

  /**
   * The identifier branch of `parsePrimaryExpression`, with `pos` just after the
   * identifier: a call, an indexed access or a plain variable access.
   */
  function Named(toks: seq<Token>, pos: nat): (r: PResult<Expr>)
    requires 0 < pos <= |toks|
    ensures r.Ok? ==> pos <= r.value.next <= |toks|
    decreases |toks| - pos, 0
  {
    var name := toks[pos - 1].literal;
    if At(toks, pos, Lit("(")) then CallArgs(toks, pos + 1, name)
    else if At(toks, pos, Lit("[")) then
      var e :- Expression(toks, pos + 1);
      if At(toks, e.next, Lit("]")) then Ok(Parsed(Access(Some(e.value), name), e.next + 1))
      else Fail("No closing bracket for function!", toks, e.next)
    else Ok(Parsed(Access(None, name), pos))
  }

  /**
   * The arguments of a call to `name`, after its `(`: none, or a first argument and the
   * loop. Each argument is parsed and then replaced by an access named after the last
   * token it consumed.
   */
  function CallArgs(toks: seq<Token>, pos: nat, name: string): (r: PResult<Expr>)
    requires 0 < pos <= |toks|
    ensures r.Ok? ==> pos < r.value.next <= |toks|
    decreases |toks| - pos, 6
  {
    if At(toks, pos, Lit(",")) then Fail("Trailing comma not allowed!", toks, pos + 1)
    else if At(toks, pos, Lit(")")) then Ok(Parsed(Call(name, []), pos + 1))
    else
      var first :- Expression(toks, pos);
      CallRest(toks, first.next, name, [Access(None, toks[first.next - 1].literal)])
  }

  /**
   * The argument loop of a call: each further argument is replaced as in `CallArgs`;
   * after `)` a `,` is rejected.
   */
  function CallRest(toks: seq<Token>, pos: nat, name: string, args: seq<Expr>): (r: PResult<Expr>)
    requires 0 < pos <= |toks|
    ensures r.Ok? ==> pos < r.value.next <= |toks|
    decreases |toks| - pos, 0
  {
    if At(toks, pos, Lit(",")) then
      var e :- Expression(toks, pos + 1);
      CallRest(toks, e.next, name, args + [Access(None, toks[e.next - 1].literal)])
    else if !At(toks, pos, Lit(")")) then Fail("No closing parenthesis for function!", toks, pos)
    else if At(toks, pos + 1, Lit(",")) then Fail("Trailing comma not allowed!", toks, pos + 2)
    else Ok(Parsed(Call(name, args), pos + 1))
  }

  // ---------------------------------------------------------------- statements

  /** The tokens that end a block: `CASE`, `DEFAULT`, `END`, `ELSE`. */
  predicate AtBlockEnd(toks: seq<Token>, pos: nat)
  {
    At(toks, pos, Lit("CASE")) || At(toks, pos, Lit("DEFAULT")) || At(toks, pos, Lit("END")) || At(toks, pos, Lit("ELSE"))
  }

  /** `parseBlock`: statements until a block-ending token; `acc` holds those parsed so far. */
  function Block(toks: seq<Token>, pos: nat, acc: seq<Stmt>): (r: PResult<seq<Stmt>>)
    requires pos <= |toks|
    ensures r.Ok? ==> pos <= r.value.next <= |toks|
    decreases |toks| - pos, 8
  {
    if AtBlockEnd(toks, pos) then Ok(Parsed(acc, pos))
    else
      var s :- Statement(toks, pos);
      Block(toks, s.next, acc + [s.value])
  }

  /** `parseStatement`: dispatch on the leading keyword, else an assignment or expression statement. */
  function Statement(toks: seq<Token>, pos: nat): (r: PResult<Stmt>)
    requires pos <= |toks|
    ensures r.Ok? ==> pos < r.value.next <= |toks|
    decreases |toks| - pos, 7
  {
    if At(toks, pos, Lit("LET")) then DeclarationStmt(toks, pos + 1)
    else if At(toks, pos, Lit("SWITCH")) then SwitchStmt(toks, pos + 1)
    else if At(toks, pos, Lit("IF")) then IfStmt(toks, pos + 1)
    else if At(toks, pos, Lit("WHILE")) then WhileStmt(toks, pos + 1)
    else if At(toks, pos, Lit("RETURN")) then ReturnStmt(toks, pos + 1)
    else
      var e :- Expression(toks, pos);
      if At(toks, e.next, Lit("=")) then
        var v :- Expression(toks, e.next + 1);
        if !At(toks, v.next, Lit(";")) then Fail("Missing semicolon after statement!", toks, v.next)
        else Ok(Parsed(Assignment(e.value, v.value), v.next + 1))
      else if !At(toks, e.next, Lit(";")) then Fail("Missing semicolon after statement!", toks, e.next)
      else Ok(Parsed(ExprStmt(e.value), e.next + 1))
  }

  /**
   * `parseDeclarationStatement`, after `LET`. The declared name is read again from
   * `tokens.get(-1)` just before `=` (Parser.java:249), so with a type it is the type's
   * token; `LET x;` without a type fails in `Optional.of(null)`.
   */
  function DeclarationStmt(toks: seq<Token>, pos: nat): (r: PResult<Stmt>)
    requires pos <= |toks|
    ensures r.Ok? ==> pos < r.value.next <= |toks|
    decreases |toks| - pos, 6
  {
    if !At(toks, pos, Kind(Identifier)) then Fail("Invalid statement!", toks, pos)
    else
      var typed := ColonType(toks, pos + 1);
      DeclarationTail(toks, typed.1, toks[pos].literal, typed.0)
  }

  /** The rest of a declaration after its name and optional type, at cursor `pos`. */
  function DeclarationTail(toks: seq<Token>, pos: nat, name: string, typeName: Option<string>): (r: PResult<Stmt>)
    requires 0 < pos <= |toks|
    ensures r.Ok? ==> pos < r.value.next <= |toks|
    decreases |toks| - pos, 6
  {
    if At(toks, pos, Lit(";")) then
      if typeName.None? then Err(NullPointer)
      else Ok(Parsed(Declaration(name, typeName, None), pos + 1))
    else
      var last := toks[pos - 1].literal;
      if At(toks, pos, Lit("=")) then
        var v :- Expression(toks, pos + 1);
        if !At(toks, v.next, Lit(";")) then Fail("Missing semicolon after statement!", toks, v.next)
        else Ok(Parsed(Declaration(last, typeName, Some(v.value)), v.next + 1))
      else Err(ParseException("Invalid declaration statement!", pos))
  }

  /** `parseIfStatement`, after `IF`. */
  function IfStmt(toks: seq<Token>, pos: nat): (r: PResult<Stmt>)
    requires pos <= |toks|
    ensures r.Ok? ==> pos < r.value.next <= |toks|
    decreases |toks| - pos, 6
  {
    var e :- Expression(toks, pos);
    if !At(toks, e.next, Lit("DO")) then Fail("Invalid if statement!", toks, e.next)
    else
      var t :- Block(toks, e.next + 1, []);
      var el :- if At(toks, t.next, Lit("ELSE")) then Block(toks, t.next + 1, []) else Ok(Parsed([], t.next));
      if !At(toks, el.next, Lit("END")) then Fail("Invalid if statement!", toks, el.next)
      else Ok(Parsed(If(e.value, t.value, el.value), el.next + 1))
  }

  /** `parseSwitchStatement`, after `SWITCH`: the `CASE`s, then an optional `DEFAULT`, then `END`. */
  function SwitchStmt(toks: seq<Token>, pos: nat): (r: PResult<Stmt>)
    requires pos <= |toks|
    ensures r.Ok? ==> pos < r.value.next <= |toks|
    decreases |toks| - pos, 6
  {
    var e :- Expression(toks, pos);
    var cs :- Cases(toks, e.next, []);
    var all :- if At(toks, cs.next, Lit("DEFAULT")) then
                 var d :- CaseStmt(toks, cs.next + 1);
                 Ok(Parsed(cs.value + [d.value], d.next))
               else Ok(cs);
    if !At(toks, all.next, Lit("END")) then Fail("Invalid switch statement!", toks, all.next)
    else Ok(Parsed(Switch(e.value, all.value), all.next + 1))
  }

  /** The `while (peek("CASE"))` loop of a switch. */
  function Cases(toks: seq<Token>, pos: nat, acc: seq<Case>): (r: PResult<seq<Case>>)
    requires pos <= |toks|
    ensures r.Ok? ==> pos <= r.value.next <= |toks|
    decreases |toks| - pos, 10
  {
    if !At(toks, pos, Lit("CASE")) then Ok(Parsed(acc, pos))
    else
      var c :- CaseStmt(toks, pos);
      Cases(toks, c.next, acc + [c.value])
  }

  /** `parseCaseStatement`: `CASE expr :` and a block, or just a block (the default). */
  function CaseStmt(toks: seq<Token>, pos: nat): (r: PResult<Case>)
    requires pos <= |toks|
    ensures r.Ok? ==> pos <= r.value.next <= |toks|
    ensures r.Ok? && At(toks, pos, Lit("CASE")) ==> pos < r.value.next
    decreases |toks| - pos, 9
  {
    if At(toks, pos, Lit("CASE")) then
      var e :- Expression(toks, pos + 1);
      if !At(toks, e.next, Lit(":")) then Fail("Invalid case statement!", toks, e.next)
      else
        var b :- Block(toks, e.next + 1, []);
        Ok(Parsed(Case(Some(e.value), b.value), b.next))
    else
      var b :- Block(toks, pos, []);
      Ok(Parsed(Case(None, b.value), b.next))
  }

  /** `parseWhileStatement`, after `WHILE`. */
  function WhileStmt(toks: seq<Token>, pos: nat): (r: PResult<Stmt>)
    requires pos <= |toks|
    ensures r.Ok? ==> pos < r.value.next <= |toks|
    decreases |toks| - pos, 6
  {
    var e :- Expression(toks, pos);
    if !At(toks, e.next, Lit("DO")) then Fail("Invalid while statement!", toks, e.next)
    else
      var b :- Block(toks, e.next + 1, []);
      if !At(toks, b.next, Lit("END")) then Fail("Invalid while statement!", toks, b.next)
      else Ok(Parsed(While(e.value, b.value), b.next + 1))
  }

  /** `parseReturnStatement`, after `RETURN`. */
  function ReturnStmt(toks: seq<Token>, pos: nat): (r: PResult<Stmt>)
    requires pos <= |toks|
    ensures r.Ok? ==> pos < r.value.next <= |toks|
    decreases |toks| - pos, 6
  {
    var e :- Expression(toks, pos);
    if !At(toks, e.next, Lit(";")) then Fail("Missing semicolon after statement!", toks, e.next)
    else Ok(Parsed(Return(e.value), e.next + 1))
  }

  // ---------------------------------------------------------------- globals, functions, source

  /**
   * `match(keyword); match(IDENTIFIER); tokens.get(-1)`: the name token of a global or a
   * function. Neither match is checked, so the token taken may not be an identifier.
   */
  function DeclName(toks: seq<Token>, pos: nat, keyword: string): (r: PResult<Token>)
    requires pos <= |toks|
    ensures r.Ok? ==> 0 < r.value.next <= |toks| && pos <= r.value.next
    ensures r.Ok? && At(toks, pos, Lit(keyword)) ==> pos < r.value.next
  {
    var p := Adv(toks, Adv(toks, pos, Lit(keyword)), Kind(Identifier));
    var t :- Prev(toks, p);
    Ok(Parsed(t, p))
  }

  /** An optional `: Type` where the type is taken only when an identifier follows the colon. */
  function OptionalType(toks: seq<Token>, pos: nat): (r: (Option<string>, nat))
    requires pos <= |toks|
    ensures pos <= r.1 <= |toks|
  {
    if At(toks, pos, Lit(":")) then
      if At(toks, pos + 1, Kind(Identifier)) then (Some(toks[pos + 1].literal), pos + 2) else (None, pos + 1)
    else (None, pos)
  }

  /**
   * `if (match(":")) { match(IDENTIFIER); type = tokens.get(-1).getLiteral(); }`: after a
   * colon the type is whatever token was consumed last, the colon itself if no identifier follows.
   */
  function ColonType(toks: seq<Token>, pos: nat): (r: (Option<string>, nat))
    requires 0 < pos <= |toks|
    ensures pos <= r.1 <= |toks|
  {
    if At(toks, pos, Lit(":")) then
      var q := Adv(toks, pos + 1, Kind(Identifier));
      (Some(toks[q - 1].literal), q)
    else (None, pos)
  }

  /** `parseList`. Only the first element expression is kept; the others are parsed and dropped. */
  function ListGlobal(toks: seq<Token>, pos: nat): (r: PResult<Global>)
    requires pos <= |toks|
    ensures r.Ok? ==> pos < r.value.next <= |toks|
  {
    var name :- DeclName(toks, pos, "LIST");
    var typed := OptionalType(toks, name.next);
    ListBody(toks, typed.1, name.value.literal, typed.0)
  }

  /** The list initialiser `= [ expr, ... ]` of a `LIST` global at cursor `pos`. */
  function ListBody(toks: seq<Token>, pos: nat, name: string, typeName: Option<string>): (r: PResult<Global>)
    requires 0 < pos <= |toks|
    ensures r.Ok? ==> pos < r.value.next <= |toks|
  {
    if !At(toks, pos, Lit("=")) then Fail("Invalid list!", toks, pos)
    else if !At(toks, pos + 1, Lit("[")) then Fail("Invalid list! Missing opening bracket", toks, pos + 1)
    else
      var first :- Expression(toks, pos + 2);
      var rest :- ListRest(toks, first.next, []);
      if !At(toks, rest.next, Lit("]")) then Fail("No closing bracket for list!", toks, rest.next)
      else Ok(Parsed(Global(name, typeName, true, Some(first.value)), rest.next + 1))
  }

  /** The `while (match(","))` loop of a list: the element expressions after the first. */
  function ListRest(toks: seq<Token>, pos: nat, acc: seq<Expr>): (r: PResult<seq<Expr>>)
    requires pos <= |toks|
    ensures r.Ok? ==> pos <= r.value.next <= |toks|
    decreases |toks| - pos
  {
    if !At(toks, pos, Lit(",")) then Ok(Parsed(acc, pos))
    else
      var e :- Expression(toks, pos + 1);
      ListRest(toks, e.next, acc + [e.value])
  }

  /** `parseMutable`: `VAR name (: Type)? (= expr)?`. */
  function MutableGlobal(toks: seq<Token>, pos: nat): (r: PResult<Global>)
    requires pos <= |toks|
    ensures r.Ok? ==> pos <= r.value.next <= |toks|
    ensures r.Ok? && At(toks, pos, Lit("VAR")) ==> pos < r.value.next
  {
    var name :- DeclName(toks, pos, "VAR");
    var typed := OptionalType(toks, name.next);
    var q := typed.1;
    if At(toks, q, Lit("=")) then
      var e :- Expression(toks, q + 1);
      Ok(Parsed(Global(name.value.literal, typed.0, true, Some(e.value)), e.next))
    else Ok(Parsed(Global(name.value.literal, typed.0, true, None), q))
  }

  /** `parseImmutable`: `VAL name (: Type)? = expr`. */
  function ImmutableGlobal(toks: seq<Token>, pos: nat): (r: PResult<Global>)
    requires pos <= |toks|
    ensures r.Ok? ==> pos < r.value.next <= |toks|
  {
    var name :- DeclName(toks, pos, "VAL");
    var typed := ColonType(toks, name.next);
    var q := typed.1;
    if !At(toks, q, Lit("=")) then Fail("Invalid immutable!", toks, q)
    else
      var e :- Expression(toks, q + 1);
      Ok(Parsed(Global(name.value.literal, typed.0, false, Some(e.value)), e.next))
  }

  predicate AtGlobal(toks: seq<Token>, pos: nat)
  {
    At(toks, pos, Lit("LIST")) || At(toks, pos, Lit("VAR")) || At(toks, pos, Lit("VAL"))
  }

  /** `parseGlobal`. */
  function GlobalDecl(toks: seq<Token>, pos: nat): (r: PResult<Global>)
    requires pos <= |toks|
    ensures r.Ok? ==> pos < r.value.next <= |toks|
  {
    if At(toks, pos, Lit("LIST")) then ListGlobal(toks, pos)
    else if At(toks, pos, Lit("VAR")) then MutableGlobal(toks, pos)
    else if At(toks, pos, Lit("VAL")) then ImmutableGlobal(toks, pos)
    else Fail("Invalid global!", toks, pos)
  }

  /** A parameter's optional `: Type`, appended to `types` only when the type identifier is there. */
  function ParamType(toks: seq<Token>, pos: nat, types: seq<string>): (r: (seq<string>, nat))
    requires pos <= |toks|
    ensures pos <= r.1 <= |toks|
  {
    var typed := OptionalType(toks, pos);
    (if typed.0.Some? then types + [typed.0.value] else types, typed.1)
  }

  /** The `while (match(","))` loop over further parameters: names and type names. */
  function ParamsRest(toks: seq<Token>, pos: nat, names: seq<string>, types: seq<string>)
    : (r: PResult<(seq<string>, seq<string>)>)
    requires pos <= |toks|
    ensures r.Ok? ==> pos <= r.value.next <= |toks|
    decreases |toks| - pos
  {
    if !At(toks, pos, Lit(",")) then Ok(Parsed((names, types), pos))
    else if !At(toks, pos + 1, Kind(Identifier)) then Fail("Trailing comma not allowed!", toks, pos + 1)
    else
      var typed := ParamType(toks, pos + 2, types);
      ParamsRest(toks, typed.1, names + [toks[pos + 1].literal], typed.0)
  }

  /** The parameter list after `(`: empty, or a first parameter and the loop. */
  function Params(toks: seq<Token>, pos: nat): (r: PResult<(seq<string>, seq<string>)>)
    requires pos <= |toks|
    ensures r.Ok? ==> pos <= r.value.next <= |toks|
  {
    if At(toks, pos, Kind(Identifier)) then
      var typed := ParamType(toks, pos + 1, []);
      ParamsRest(toks, typed.1, [toks[pos].literal], typed.0)
    else Ok(Parsed(([], []), pos))
  }

  /**
   * `parseFunction`. The return type is wrapped with `Optional.of`, so a function
   * without `: Type` fails with a null pointer once its body has been parsed.
   */
  function FunctionDecl(toks: seq<Token>, pos: nat): (r: PResult<Function>)
    requires pos <= |toks|
    ensures r.Ok? ==> pos < r.value.next <= |toks|
  {
    var name :- DeclName(toks, pos, "FUN");
    FunctionRest(toks, name.next, name.value.literal)
  }

  /** The part of a function after its name: the parenthesised parameters, then the body. */
  function FunctionRest(toks: seq<Token>, pos: nat, name: string): (r: PResult<Function>)
    requires pos <= |toks|
    ensures r.Ok? ==> pos < r.value.next <= |toks|
  {
    if !At(toks, pos, Lit("(")) then Fail("Missing opening parenthesis", toks, pos)
    else
      var ps :- Params(toks, pos + 1);
      if !At(toks, ps.next, Lit(")")) then Fail("Missing matching closing parenthesis", toks, ps.next)
      else FunctionBody(toks, ps.next + 1, name, ps.value.0, ps.value.1)
  }

  /** The part of a function after its parameter list: `(: Type)? DO block END`. */
  function FunctionBody(toks: seq<Token>, pos: nat, name: string, params: seq<string>, paramTypes: seq<string>)
    : (r: PResult<Function>)
    requires 0 < pos <= |toks|
    ensures r.Ok? ==> pos < r.value.next <= |toks|
  {
    var typed := ColonType(toks, pos);
    var q := typed.1;
    if !At(toks, q, Lit("DO")) then Fail("Invalid function!", toks, q)
    else
      var body :- Block(toks, q + 1, []);
      if !At(toks, body.next, Lit("END")) then Fail("Invalid function!", toks, body.next)
      else if typed.0.None? then Err(NullPointer)
      else Ok(Parsed(Function(name, params, paramTypes, typed.0, body.value), body.next + 1))
  }

  /** The globals loop of `parseSource`. */
  function Globals(toks: seq<Token>, pos: nat, acc: seq<Global>): (r: PResult<seq<Global>>)
    requires pos <= |toks|
    ensures r.Ok? ==> pos <= r.value.next <= |toks|
    decreases |toks| - pos
  {
    if !AtGlobal(toks, pos) then Ok(Parsed(acc, pos))
    else
      var g :- GlobalDecl(toks, pos);
      Globals(toks, g.next, acc + [g.value])
  }

  /** The functions loop of `parseSource`. */
  function Functions(toks: seq<Token>, pos: nat, acc: seq<Function>): (r: PResult<seq<Function>>)
    requires pos <= |toks|
    ensures r.Ok? ==> pos <= r.value.next <= |toks|
    decreases |toks| - pos
  {
    if !At(toks, pos, Lit("FUN")) then Ok(Parsed(acc, pos))
    else
      var f :- FunctionDecl(toks, pos);
      Functions(toks, f.next, acc + [f.value])
  }

  /** `parseSource`: globals, then functions; whatever follows is not looked at. */
  function SourceDecl(toks: seq<Token>, pos: nat): (r: PResult<Source>)
    requires pos <= |toks|
    ensures r.Ok? ==> pos <= r.value.next <= |toks|
  {
    var gs :- Globals(toks, pos, []);
    var fs :- Functions(toks, gs.next, []);
    Ok(Parsed(Source(gs.value, fs.value), fs.next))
  }
}
