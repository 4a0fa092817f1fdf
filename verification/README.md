# PLC toy language: parser, interpreter and Java generator

This project is a Dafny model of the three back-end stages of a small
teaching language, the "PLC" language of `plc.project`.

1. **Parser.** A recursive-descent parser turns a token list into an abstract
   syntax tree. It reads `LIST`/`VAR`/`VAL` globals, then `FUN` functions whose
   bodies hold `LET`, `SWITCH`, `IF`, `WHILE`, `RETURN`, assignment and expression
   statements. Expressions climb four precedence levels: `&& ||`, then
   `< > == !=`, then `+ -`, then `* / ^`. Each level folds to the left. Primaries
   are literals, groups, calls and plain or indexed variable accesses.
2. **Interpreter.** A tree-walking interpreter evaluates the tree over runtime
   values: NIL, Boolean, Integer, Decimal, Character, String and List. It keeps a
   chain of scopes holding variable cells and (name, arity) functions. A function
   is a closure over the scope it was defined in, and `RETURN` unwinds to the
   enclosing call.
3. **Generator.** A Java code generator writes the tree out as the source of a
   Java class `Main`, indenting by four spaces per level.

## How the model is built

- **`Ast`** holds the syntax tree as datatypes.
- **`Common`** holds the `Result`/`Option` wrappers and the integer-to-text
  conversion.
- **`Literals`** decodes literal tokens: `BigInteger` and `BigDecimal` text, quote
  stripping and escape replacement. **`LiteralProps`** holds its round trips.

### Parser

- **`ParserSpec`** writes the parser's grammar as pure functions over a token
  sequence and a position. Each function returns the tree and the position after
  it, or the `ParseException` (message and offset) that the parser would throw.
  Two other Java exceptions become values too:
  - `NullPointerException` from `Optional.of(null)`;
  - `IndexOutOfBoundsException` from `tokens.get(-1)` at the start of the input.
- **`Parsing`** is the parser in the source's own imperative form:
  - a `TokenStream` class whose `index` field advances in place;
  - a `Parser` class whose `peek`/`match` and `parse*` methods loop over it.

  Every method is proved to return what the matching `ParserSpec` function
  returns, and to leave the cursor where that function says.
- **`ParserProps`** and **`ParserExamples`** state what the grammar promises:
  - lookahead;
  - precedence and left associativity;
  - where blocks stop;
  - the shape of switches;
  - mutability of globals;
  - the error cases;
  - the quirks of the code as written.

### Interpreter

- **`Values`** holds runtime values and the per-operator semantics once both
  operands are values:
  - `requireType`;
  - `compareTo`;
  - exact integer and decimal arithmetic;
  - truncating integer division;
  - half-even decimal division;
  - the iterated `^`.
- **`Semantics`** is a functional reference semantics for the interpreter. Its
  `State` holds:
  - a store of scope frames, each naming its parent;
  - the current scope;
  - a store of lists, so that list values are shared references;
  - the output log of the `print` builtin.

  Every function of it is proved to preserve well-formedness and to only extend
  the state: no scope, variable or list element slot ever disappears, and output
  is only appended.
- **`Interpreting`** is the interpreter as a class whose fields are updated in
  place. Like `new Interpreter(parent)`, its constructor takes the parent scope:
  the interpreter's own scope is a child of it. It has the scope stack, the current scope, the lists and the output. Every
  `Visit*` method is proved to end in the state, and with the result, that the
  reference semantics gives.
- **`InterpreterProps`** states the operator and control-flow properties.

### Generator

- **`GeneratorSpec`** gives the text written for each node as pure functions of
  the node and the indentation on entry.
- **`Generating`** is the generator as a class with an output buffer and an
  `indent` counter. Each method is proved to append exactly the specified text.
  Every method except the source visit leaves `indent` as it found it. The source
  visit leaves it one level deeper, because `visit(Ast.Source)` raises it before
  the main method and never lowers it again.
- Globals are written as the code does it, with no space after `final`
  (`GenGlobalAsWritten`). The text with the space (`GenGlobal`) is kept beside it,
  and the two are proved to differ only by that space.
- **`GeneratorProps`** proves that:
  - a visit completes exactly when no NIL literal is printed;
  - lists of arguments are comma-joined;
  - other text properties hold: blocks, cases, globals and the main method.

## Model

| member | source | states |
|---|---|---|
| Literals.IntegerValue | src/main/java/plc/project/Parser.java:424-425 | `new BigInteger(text)` succeeds exactly when the text is an optional sign followed by one or more decimal digits |
| Literals.DecimalValue | src/main/java/plc/project/Parser.java:426-427 | a decoded decimal's scale is below the text's length, and a rejected text is a NumberFormat error on that text |
| LiteralProps.DecimalValueOfParts | src/main/java/plc/project/Parser.java:426-427 | a numeral with a point decodes to the digits on both sides read as one signed number, with the count of digits after the point as its scale |
| LiteralProps.DecimalValueOfDigits | src/main/java/plc/project/Parser.java:426-427 | a numeral without a point decodes to the signed value of its digits with scale 0 |
| LiteralProps.DecimalValueOfText | src/main/java/plc/project/Parser.java:426-427 | decimal literal round trip: the plain text of any decimal, trailing zeros included, decodes to that decimal, scale included |
| LiteralProps.DigitsValueOfNat | src/main/java/plc/project/Parser.java:424-425 | the decimal digits of a natural number read back as that number |
| LiteralProps.IntegerValueOfText | src/main/java/plc/project/Parser.java:424-425 | integer literal round trip: the text of any integer decodes to that integer |
| LiteralProps.IntegerValueRejects | src/main/java/plc/project/Parser.java:424-425 | a numeral with a non-digit after its first character is a NumberFormat error |
| Literals.StripQuotes | src/main/java/plc/project/Parser.java:429-430 | `substring(1, length - 1)` succeeds exactly on a token of two or more characters, and the token is its first character, the result, then its last character |
| Literals.ReplaceAll | src/main/java/plc/project/Parser.java:431-437 | `replace` with a replacement no longer than its target never lengthens the text |
| Literals.UnescapeChar | src/main/java/plc/project/Parser.java:431-437 | the character-literal replacement chain never lengthens the body |
| Literals.UnescapeString | src/main/java/plc/project/Parser.java:443-449 | the string-literal replacement chain never lengthens the body |
| Literals.CharValue | src/main/java/plc/project/Parser.java:428-439 | a character token decodes only when it has at least three characters |
| Literals.StringValue | src/main/java/plc/project/Parser.java:440-450 | a string token decodes exactly when it has at least two characters, to text no longer than its body |
| Literals.StringValueFixed | src/main/java/plc/project/Parser.java:440-450 | the one-pass decoding accepts exactly the tokens the code as written accepts |
| Literals.ControlChar | src/main/java/plc/project/Parser.java:446-449 | no contract of its own: the letters `b`, `n`, `r`, `t` and their control characters; `LiteralProps.UnescapeControl` states that a backslash and such a letter decode to that one character |
| Literals.EscapeLetter | src/main/java/plc/project/Parser.java:431-437 | no contract of its own: the letter that writes each escapable character after a backslash; `LiteralProps.UnescapeCharEscaped` and `LiteralProps.CharValueRoundTrip` state that the character chain reads it back as that character |
| Literals.UnescapeFixed | src/main/java/plc/project/Parser.java:443-449 | no contract of its own: the intended string decoding, each escape read once from the left; `LiteralProps.UnescapeEscape` states that it undoes `Escape` on every string, and `LiteralProps.UnescapeFixedPlain` that it leaves a body without backslashes unchanged |
| LiteralProps.UnescapeStringPlain | src/main/java/plc/project/Parser.java:440-450 | the replacement chain as written leaves a body with no backslash unchanged |
| LiteralProps.UnescapeFixedPlain | src/main/java/plc/project/Parser.java:440-450 | the one-pass unescape leaves a body with no backslash unchanged |
| LiteralProps.StringValuePlain | src/main/java/plc/project/Parser.java:440-450 | a string token with no backslash decodes to its text with the first and last quote removed |
| LiteralProps.UnescapeControl | src/main/java/plc/project/Parser.java:446-449 | under the one-pass decoding, `\b`, `\n`, `\r`, `\t` at the head of a string body become the corresponding control character and the rest decodes on its own |
| LiteralProps.UnescapeStringControl | src/main/java/plc/project/Parser.java:446-449 | under the chain as written, `\b`, `\n`, `\r`, `\t` at the head of a body with no escaped backslash become the corresponding control character and the rest decodes on its own |
| LiteralProps.UnescapeStringPiece | src/main/java/plc/project/Parser.java:443-449 | on one character or one escape other than `\\`, the chain as written decodes that piece independently of the text after it |
| LiteralProps.UnescapeStringAgrees | src/main/java/plc/project/Parser.java:443-449 | on a body with no escaped backslash, the chain as written decodes exactly as the one-pass decoding |
| LiteralProps.EscapeSimple | src/main/java/plc/project/Parser.java:443-449 | escaping a text with no backslash produces only the escapes `\'`, `\"`, `\b`, `\n`, `\r`, `\t` |
| LiteralProps.UnescapeEscape | src/main/java/plc/project/Parser.java:443-449 | the one-pass unescape undoes escaping for every text |
| LiteralProps.StringValueRoundTrip | src/main/java/plc/project/Parser.java:440-450 | as written, a string token written by escaping a text with no backslash decodes back to that text |
| LiteralProps.StringValueFixedRoundTrip | src/main/java/plc/project/Parser.java:440-450 | under the one-pass decoding, a string token written by escaping any text decodes back to that text |
| LiteralProps.UnescapeStringLosesBackslash | src/main/java/plc/project/Parser.java:443-449 | the chain as written turns the escaped text `\n` (backslash, n) into a newline, while the one-pass unescape keeps it |
| LiteralProps.CharValueRoundTrip | src/main/java/plc/project/Parser.java:428-439 | a character token written from any character by escaping decodes back to it |
| ParserSpec.PeekAtOne | src/main/java/plc/project/Parser.java:504-521 | a one-pattern `peek` is the test of the current token against that pattern |
| ParserSpec.PeekAt | src/main/java/plc/project/Parser.java:504-521 | no contract of its own: every pattern has a token at its offset that it matches; `Parsing.Parser.Peek` computes it with the source loop, `ParserSpec.PeekAtOne` and `ParserProps.PeekComparesOnePart` state a one-pattern peek, `ParserProps.PeekNeedsRoom` that a peek past the end fails |
| ParserSpec.ErrorAt | src/main/java/plc/project/Parser.java:61 | no contract of its own: a `ParseException` at the offset of the last consumed token, or the `IndexOutOfBounds(-1)` that `tokens.get(-1)` raises when nothing was consumed; every parser contract that ends in an error is stated through it |
| ParserSpec.Expression | src/main/java/plc/project/Parser.java:347-349 | a parsed expression consumes at least one token and stays within the input |
| ParserSpec.Climb | src/main/java/plc/project/Parser.java:354-409 | a precedence level consumes at least one token and stays within the input |
| ParserSpec.ClimbRest | src/main/java/plc/project/Parser.java:356-362 | the left fold of one level never moves the cursor back nor past the end |
| ParserSpec.Primary | src/main/java/plc/project/Parser.java:417-492 | a primary consumes at least one token and stays within the input |
| ParserSpec.LiteralToken | src/main/java/plc/project/Parser.java:418-450 | a decoded literal token is a literal node |
| ParserSpec.Named | src/main/java/plc/project/Parser.java:457-488 | what follows an identifier stays within the input |
| ParserSpec.CallArgs | src/main/java/plc/project/Parser.java:460-476 | an argument list consumes at least one token and stays within the input |
| ParserSpec.CallRest | src/main/java/plc/project/Parser.java:465-476 | the argument loop consumes at least one token and stays within the input |
| ParserSpec.Block | src/main/java/plc/project/Parser.java:187-194 | a block never moves the cursor back nor past the end |
| ParserSpec.Statement | src/main/java/plc/project/Parser.java:201-225 | a statement consumes at least one token and stays within the input |
| ParserSpec.DeclarationStmt | src/main/java/plc/project/Parser.java:232-262 | a `LET` statement consumes at least one token and stays within the input |
| ParserSpec.DeclarationTail | src/main/java/plc/project/Parser.java:244-261 | the part of a `LET` after its name and type consumes at least one token |
| ParserSpec.IfStmt | src/main/java/plc/project/Parser.java:269-280 | an `IF` consumes at least one token and stays within the input |
| ParserSpec.SwitchStmt | src/main/java/plc/project/Parser.java:287-301 | a `SWITCH` consumes at least one token and stays within the input |
| ParserSpec.Cases | src/main/java/plc/project/Parser.java:290-292 | the `CASE` loop never moves the cursor back nor past the end |
| ParserSpec.CaseStmt | src/main/java/plc/project/Parser.java:308-318 | a case stays within the input, and a `CASE` case consumes at least one token |
| ParserSpec.WhileStmt | src/main/java/plc/project/Parser.java:325-331 | a `WHILE` consumes at least one token and stays within the input |
| ParserSpec.ReturnStmt | src/main/java/plc/project/Parser.java:338-342 | a `RETURN` consumes at least one token and stays within the input |
| ParserSpec.DeclName | src/main/java/plc/project/Parser.java:69-72 | the keyword-and-name prefix of a declaration consumes its keyword when present |
| ParserSpec.OptionalType | src/main/java/plc/project/Parser.java:74-78 | the optional `: Type` never moves the cursor back nor past the end |
| ParserSpec.ColonType | src/main/java/plc/project/Parser.java:125-128 | the `: Type` of a `VAL` never moves the cursor back nor past the end |
| ParserSpec.ListGlobal | src/main/java/plc/project/Parser.java:68-92 | a `LIST` global consumes at least one token and stays within the input |
| ParserSpec.ListBody | src/main/java/plc/project/Parser.java:80-91 | the `= [ … ]` part of a list consumes at least one token |
| ParserSpec.ListRest | src/main/java/plc/project/Parser.java:85-87 | the list element loop never moves the cursor back nor past the end |
| ParserSpec.MutableGlobal | src/main/java/plc/project/Parser.java:98-114 | a `VAR` global consumes its keyword and stays within the input |
| ParserSpec.ImmutableGlobal | src/main/java/plc/project/Parser.java:120-133 | a `VAL` global consumes at least one token and stays within the input |
| ParserSpec.GlobalDecl | src/main/java/plc/project/Parser.java:52-62 | a global consumes at least one token and stays within the input |
| ParserSpec.ParamType | src/main/java/plc/project/Parser.java:150-154 | a parameter's optional type never moves the cursor back nor past the end |
| ParserSpec.ParamsRest | src/main/java/plc/project/Parser.java:155-164 | the parameter loop never moves the cursor back nor past the end |
| ParserSpec.Params | src/main/java/plc/project/Parser.java:148-165 | a parameter list never moves the cursor back nor past the end |
| ParserSpec.FunctionDecl | src/main/java/plc/project/Parser.java:139-181 | a function consumes at least one token and stays within the input |
| ParserSpec.FunctionRest | src/main/java/plc/project/Parser.java:147-167 | the parenthesised parameter part consumes at least one token |
| ParserSpec.FunctionBody | src/main/java/plc/project/Parser.java:169-180 | the return type and `DO … END` body consume at least one token |
| ParserSpec.Globals | src/main/java/plc/project/Parser.java:37-39 | the global loop never moves the cursor back nor past the end |
| ParserSpec.Functions | src/main/java/plc/project/Parser.java:41-43 | the function loop never moves the cursor back nor past the end |
| ParserSpec.SourceDecl | src/main/java/plc/project/Parser.java:34-46 | a source never moves the cursor back nor past the end |
| Parsing.TokenStream.constructor | src/main/java/plc/project/Parser.java:543-546 | a new stream holds the tokens with its cursor at 0 |
| Parsing.TokenStream.Has | src/main/java/plc/project/Parser.java:550-555 | no contract of its own: a token exists at `index + offset` when that is below the size; `Parsing.Parser.Peek` is proved against `ParserSpec.PeekAt` with it |
| Parsing.TokenStream.Get | src/main/java/plc/project/Parser.java:557-566 | no contract of its own: the token at `index + offset`, or `List.get`'s index error outside the list; the parsing methods that read `get(-1)` are proved against `ParserSpec` with it |
| Parsing.TokenStream.Advance | src/main/java/plc/project/Parser.java:568-570 | `advance` moves the cursor by exactly one |
| Parsing.Parser.constructor | src/main/java/plc/project/Parser.java:27-29 | a new parser owns a fresh stream over the tokens at position 0 |
| Parsing.Parser.Peek | src/main/java/plc/project/Parser.java:504-521 | `peek` is true exactly when every pattern matches the token at its offset: a String against the literal, a kind against the kind |
| Parsing.Parser.Match | src/main/java/plc/project/Parser.java:527-536 | `match` returns what `peek` returns, and moves the cursor by the pattern count on true and not at all on false |
| Parsing.Parser.MatchOne | src/main/java/plc/project/Parser.java:527-536 | one-pattern `match`: true exactly at a matching token, and the cursor moves by one exactly then |
| Parsing.Parser.PeekOne | src/main/java/plc/project/Parser.java:504-521 | one-pattern `peek` compares the current token only |
| Parsing.Parser.PeekOperator | src/main/java/plc/project/Parser.java:356-401 | the `peek` disjunction of a level is true exactly at an operator of that level |
| Parsing.Parser.ParseSource | src/main/java/plc/project/Parser.java:34-46 | returns the source (or the error) `SourceDecl` gives and leaves the cursor where it ends |
| Parsing.Parser.PeekGlobal | src/main/java/plc/project/Parser.java:37 | true exactly at `LIST`, `VAR` or `VAL` |
| Parsing.Parser.ParseGlobal | src/main/java/plc/project/Parser.java:52-62 | returns what `GlobalDecl` gives, with the cursor where it ends |
| Parsing.Parser.ParseDeclName | src/main/java/plc/project/Parser.java:69-72 | returns what `DeclName` gives, with the cursor where it ends |
| Parsing.Parser.ParseOptionalType | src/main/java/plc/project/Parser.java:74-78 | returns the type name and the cursor `OptionalType` gives |
| Parsing.Parser.ParseColonType | src/main/java/plc/project/Parser.java:125-128 | returns the type name and the cursor `ColonType` gives |
| Parsing.Parser.ParseList | src/main/java/plc/project/Parser.java:68-92 | returns what `ListGlobal` gives, with the cursor where it ends |
| Parsing.Parser.ParseListBody | src/main/java/plc/project/Parser.java:80-91 | returns what `ListBody` gives, with the cursor where it ends |
| Parsing.Parser.ParseListRest | src/main/java/plc/project/Parser.java:85-87 | the loop over `, expr` ends where `ListRest` does, with its result |
| Parsing.Parser.ParseMutable | src/main/java/plc/project/Parser.java:98-114 | returns what `MutableGlobal` gives, with the cursor where it ends |
| Parsing.Parser.ParseImmutable | src/main/java/plc/project/Parser.java:120-133 | returns what `ImmutableGlobal` gives, with the cursor where it ends |
| Parsing.Parser.ParseParameterType | src/main/java/plc/project/Parser.java:150-154 | appends the parameter type and moves the cursor as `ParamType` says |
| Parsing.Parser.ParseParameters | src/main/java/plc/project/Parser.java:148-165 | the parameter list returns what `Params` gives, with the cursor where it ends |
| Parsing.Parser.ParseMoreParameters | src/main/java/plc/project/Parser.java:155-164 | the `,` loop returns what `ParamsRest` gives from the names and types read so far, including the trailing-comma error, with the cursor where it ends |
| Parsing.Parser.ParseFunction | src/main/java/plc/project/Parser.java:139-181 | returns what `FunctionDecl` gives, with the cursor where it ends |
| Parsing.Parser.ParseFunctionRest | src/main/java/plc/project/Parser.java:147-167 | returns what `FunctionRest` gives, with the cursor where it ends |
| Parsing.Parser.ParseFunctionBody | src/main/java/plc/project/Parser.java:169-180 | returns what `FunctionBody` gives, with the cursor where it ends |
| Parsing.Parser.ParseExpression | src/main/java/plc/project/Parser.java:347-349 | returns what `Expression` gives, with the cursor where it ends |
| Parsing.Parser.ParseLogicalExpression | src/main/java/plc/project/Parser.java:354-364 | the `&& ||` loop returns what `Climb` at level 4 gives |
| Parsing.Parser.ParseComparisonExpression | src/main/java/plc/project/Parser.java:369-379 | the `< > == !=` loop returns what `Climb` at level 3 gives |
| Parsing.Parser.ParseAdditiveExpression | src/main/java/plc/project/Parser.java:384-394 | the `+ -` loop returns what `Climb` at level 2 gives |
| Parsing.Parser.ParseMultiplicativeExpression | src/main/java/plc/project/Parser.java:399-409 | the `* / ^` loop returns what `Climb` at level 1 gives |
| Parsing.Parser.ParsePrimaryExpression | src/main/java/plc/project/Parser.java:417-492 | returns what `Primary` gives, with the cursor where it ends |
| Parsing.Parser.PeekLiteral | src/main/java/plc/project/Parser.java:418-440 | true exactly at `TRUE`, `NIL`, `FALSE` or an integer, decimal, character or string token |
| Parsing.Parser.ParseLiteralToken | src/main/java/plc/project/Parser.java:418-450 | consumes one token and returns its decoded literal as `LiteralToken` gives |
| Parsing.Parser.ParseNamed | src/main/java/plc/project/Parser.java:457-488 | returns what `Named` gives, with the cursor where it ends |
| Parsing.Parser.ParseCallArguments | src/main/java/plc/project/Parser.java:460-476 | returns what `CallArgs` gives, with the cursor where it ends |
| Parsing.Parser.ParseCallRest | src/main/java/plc/project/Parser.java:465-476 | the argument loop returns what `CallRest` gives |
| Parsing.Parser.PeekBlockEnd | src/main/java/plc/project/Parser.java:189 | true exactly at `CASE`, `DEFAULT`, `END` or `ELSE` |
| Parsing.Parser.ParseBlock | src/main/java/plc/project/Parser.java:187-194 | the statement loop returns what `Block` gives, with the cursor where it ends |
| Parsing.Parser.ParseStatement | src/main/java/plc/project/Parser.java:201-225 | returns what `Statement` gives, with the cursor where it ends |
| Parsing.Parser.ParseDeclarationStatement | src/main/java/plc/project/Parser.java:232-262 | returns what `DeclarationStmt` gives, with the cursor where it ends |
| Parsing.Parser.ParseIfStatement | src/main/java/plc/project/Parser.java:269-280 | returns what `IfStmt` gives, with the cursor where it ends |
| Parsing.Parser.ParseSwitchStatement | src/main/java/plc/project/Parser.java:287-301 | the case loop returns what `SwitchStmt` gives |
| Parsing.Parser.ParseCaseStatement | src/main/java/plc/project/Parser.java:308-318 | returns what `CaseStmt` gives, with the cursor where it ends |
| Parsing.Parser.ParseWhileStatement | src/main/java/plc/project/Parser.java:325-331 | returns what `WhileStmt` gives, with the cursor where it ends |
| Parsing.Parser.ParseReturnStatement | src/main/java/plc/project/Parser.java:338-342 | returns what `ReturnStmt` gives, with the cursor where it ends |
| Parsing.Parser.ErrorHere | src/main/java/plc/project/Parser.java:557-559 | an error raised here carries the offset of the previously consumed token (`tokens.get(-1)`) |
| ParserProps.PeekNeedsRoom | src/main/java/plc/project/Parser.java:505-507 | `peek` is false whenever fewer tokens remain than there are patterns |
| ParserProps.PeekComparesOnePart | src/main/java/plc/project/Parser.java:508-516 | a String pattern compares the literal and a kind pattern compares the kind |
| ParserProps.ExpressionShaped | src/main/java/plc/project/Parser.java:347-409 | every parsed expression respects precedence: a binary's left operand has operators of its level or tighter, its right operand only tighter ones |
| ParserProps.ClimbShaped | src/main/java/plc/project/Parser.java:354-409 | each level builds a tree whose operators are of that level or tighter, folded to the left |
| ParserProps.ClimbRestShaped | src/main/java/plc/project/Parser.java:356-362 | the left fold of one level keeps the tree left-associative |
| ParserProps.PrimaryShaped | src/main/java/plc/project/Parser.java:417-492 | a primary has no bare binary: groups and indices restart at the loosest level |
| ParserProps.NamedShaped | src/main/java/plc/project/Parser.java:457-488 | a call, access or indexed access is a precedence-respecting primary |
| ParserProps.CallArgsShaped | src/main/java/plc/project/Parser.java:460-476 | every argument of a parsed call is a plain access |
| ParserProps.CallRestShaped | src/main/java/plc/project/Parser.java:465-476 | the argument loop only ever adds plain accesses |
| ParserProps.BlockStopsAtTerminator | src/main/java/plc/project/Parser.java:187-194 | a block ends at `CASE`, `DEFAULT`, `END` or `ELSE`, without consuming it, and keeps earlier statements in order |
| ParserProps.ExpressionStatementForms | src/main/java/plc/project/Parser.java:214-224 | an expression followed by `=` is an assignment, otherwise an expression statement ending at its `;`; neither `=` nor `;` is "Missing semicolon after statement!" |
| ParserProps.CasesValued | src/main/java/plc/project/Parser.java:290-292 | the `CASE` loop yields only valued cases, in source order |
| ParserProps.SwitchDefaultLast | src/main/java/plc/project/Parser.java:287-301 | a case without a value, the `DEFAULT`, can only be the last case |
| ParserProps.CaseValue | src/main/java/plc/project/Parser.java:308-318 | a case has a value exactly when it starts with `CASE` |
| ParserProps.GlobalMutability | src/main/java/plc/project/Parser.java:52-133 | a global is mutable exactly when it is not a `VAL`; `VAL` and `LIST` globals always have a value |
| ParserProps.ImmutableNeedsInitialiser | src/main/java/plc/project/Parser.java:129 | a `VAL` without `=` is "Invalid immutable!" at the previous token |
| ParserProps.TrailingCommaInParameters | src/main/java/plc/project/Parser.java:155-157 | a comma in a parameter list not followed by an identifier is "Trailing comma not allowed!" at that comma |
| ParserProps.TrailingCommaInCall | src/main/java/plc/project/Parser.java:461 | a call whose arguments open with `,` is "Trailing comma not allowed!" |
| ParserProps.GlobalsInOrder | src/main/java/plc/project/Parser.java:37-39 | the global loop keeps globals in source order and stops at the first non-global |
| ParserProps.FunctionsStop | src/main/java/plc/project/Parser.java:41-43 | the function loop keeps functions in order and stops at the first non-`FUN` |
| ParserProps.SourceStops | src/main/java/plc/project/Parser.java:34-46 | a source ends before any `FUN`, and before any global when it has no functions; nothing else is checked about the rest |
| ParserExamples.ClimbAtom | src/main/java/plc/project/Parser.java:354-409 | an operand with no operator after it passes unchanged through every level |
| ParserExamples.ClimbUp | src/main/java/plc/project/Parser.java:347-364 | a level's result with no looser operator after it is the whole expression |
| ParserExamples.VarClimb | src/main/java/plc/project/Parser.java:457-488 | a lone identifier parses as a plain access at every level |
| ParserExamples.IntExpression | src/main/java/plc/project/Parser.java:424-425 | a lone integer token parses as that integer literal |
| ParserExamples.ExprStmtStep | src/main/java/plc/project/Parser.java:222-224 | an expression followed by `;` is an expression statement |
| ParserExamples.AssignmentStep | src/main/java/plc/project/Parser.java:215-219 | `expr = expr ;` is an assignment |
| ParserExamples.NoSemicolonStep | src/main/java/plc/project/Parser.java:222 | an expression followed by neither `=` nor `;` is "Missing semicolon after statement!" |
| ParserExamples.PrimaryErrorClimbs | src/main/java/plc/project/Parser.java:354-417 | an error in the first primary is the error of every level |
| ParserExamples.SubtractionFoldsLeft | src/main/java/plc/project/Parser.java:384-394 | `a - b - c` parses to `(a - b) - c` |
| ParserExamples.ProductBindsTighter | src/main/java/plc/project/Parser.java:384-409 | `a + b * c` parses to `a + (b * c)` |
| ParserExamples.ComparisonBindsTighter | src/main/java/plc/project/Parser.java:354-379 | `a < b && c` parses to `(a < b) && c` |
| ParserExamples.CallArgument | src/main/java/plc/project/Parser.java:465 | the argument `a + b` in `f(a + b)` parses as a sum |
| ParserExamples.CallArgumentBecomesLastToken | src/main/java/plc/project/Parser.java:465-469 | `f(a + b)` parses to a call whose one argument is an access named `b`, the argument's last token |
| ParserExamples.CallLeadingComma | src/main/java/plc/project/Parser.java:461 | `f(, a)` is "Trailing comma not allowed!" at the comma |
| ParserExamples.UntypedDeclarationWithoutValue | src/main/java/plc/project/Parser.java:244-245 | `LET x;` with no type throws from `Optional.of(null)` |
| ParserExamples.TypedDeclarationTakesTypeName | src/main/java/plc/project/Parser.java:239-255 | `LET x: Integer = 1;` declares the name `Integer`, the last token read before `=` |
| ParserExamples.InvalidDeclarationUsesIndex | src/main/java/plc/project/Parser.java:261 | an invalid `LET` reports the stream index, not a token offset |
| ParserExamples.AssignmentStatement | src/main/java/plc/project/Parser.java:215-219 | `x = 1;` parses to an assignment |
| ParserExamples.ExpressionStatement | src/main/java/plc/project/Parser.java:222-224 | `x;` parses to an expression statement |
| ParserExamples.MissingSemicolon | src/main/java/plc/project/Parser.java:222 | `x y` is "Missing semicolon after statement!" at offset 0: the offset of `x`, the last token read, not of `y`, where `;` was expected |
| ParserExamples.EscapedBackslashBecomesNewline | src/main/java/plc/project/Parser.java:440-450 | the string token `"\\n"` (an escaped backslash, then `n`) parses to a literal holding a newline |
| ParserExamples.ListTail | src/main/java/plc/project/Parser.java:85-87 | the element loop reads `, 2` and keeps only the last element it read |
| ParserExamples.ListKeepsFirstElement | src/main/java/plc/project/Parser.java:84-91 | `LIST l = [1, 2]` keeps only the first element expression |
| ParserExamples.ImmutableWithoutEquals | src/main/java/plc/project/Parser.java:129 | `VAL v 1` is "Invalid immutable!" at the name |
| ParserExamples.FunctionWithoutReturnType | src/main/java/plc/project/Parser.java:180 | a function with no return type throws from `Optional.of(null)` |
| ParserExamples.ParameterTrailingComma | src/main/java/plc/project/Parser.java:155-157 | `FUN f(a, ) …` is "Trailing comma not allowed!" at the comma |
| ParserExamples.NoEndOfInputCheck | src/main/java/plc/project/Parser.java:34-46 | input that is not a global or function parses as the empty source, with the tokens left unread |
| Values.LiteralValue | src/main/java/plc/project/Interpreter.java:217-224 | a literal never evaluates to a list |
| Values.RequireBool | src/main/java/plc/project/Interpreter.java:35-41 | succeeds exactly on a Boolean and returns it; otherwise a type error naming both classes |
| Values.RequireInt | src/main/java/plc/project/Interpreter.java:35-41 | succeeds exactly on an Integer and returns it; otherwise a type error naming both classes |
| Values.RequireList | src/main/java/plc/project/Interpreter.java:35-41 | succeeds exactly on a List and returns it; otherwise a type error naming both classes |
| Values.RequireComparable | src/main/java/plc/project/Interpreter.java:35-41 | succeeds exactly on a comparable value and returns it unchanged; otherwise a type error |
| Values.Text | src/main/java/plc/project/Interpreter.java:255 | `toString()` of an Integer is text that `new BigInteger` reads back as that integer; of a String, the string itself |
| Values.Add | src/main/java/plc/project/Interpreter.java:251-264 | `+` succeeds exactly when either side is a String, or both are Integers, or both are Decimals |
| Values.Subtract | src/main/java/plc/project/Interpreter.java:265-276 | `-` succeeds exactly on two Integers or two Decimals |
| Values.Multiply | src/main/java/plc/project/Interpreter.java:277-288 | `*` succeeds exactly on two Integers or two Decimals |
| Values.Divide | src/main/java/plc/project/Interpreter.java:289-306 | `/` succeeds exactly on two Integers with a non-zero divisor or two Decimals with a non-zero divisor |
| Values.Power | src/main/java/plc/project/Interpreter.java:307-331 | `^` succeeds exactly when the base is an Integer or a Decimal and the exponent an Integer |
| Values.DecAdd | src/main/java/plc/project/Interpreter.java:258-262 | the scale of a decimal sum is the larger operand scale |
| Values.DecSub | src/main/java/plc/project/Interpreter.java:270-274 | the scale of a decimal difference is the larger operand scale |
| Values.DecMul | src/main/java/plc/project/Interpreter.java:282-286 | the scale of a decimal product is the sum of the operand scales |
| Values.Sign | src/main/java/plc/project/Interpreter.java:243-250 | the sign is -1, 0 or 1, negative and zero exactly when its argument is |
| Values.DecCompare | src/main/java/plc/project/Interpreter.java:243-250 | decimal `compareTo` is -1, 0 or 1, and 0 exactly when the two values are equal at their common scale, whatever their own scales |
| Values.TruncDiv | src/main/java/plc/project/Interpreter.java:292-297 | the integer quotient rounds toward zero: the product is no larger than the dividend in size, has its sign, and the remainder is smaller than the divisor in size |
| Values.RoundHalfEven | src/main/java/plc/project/Interpreter.java:299-303 | rounds a quotient to the nearest integer, to the even one on a tie |
| Values.DecDiv | src/main/java/plc/project/Interpreter.java:299-303 | a decimal quotient keeps the dividend's scale and is within half a unit of the exact quotient |
| Values.StrCompare | src/main/java/plc/project/Interpreter.java:243-250 | the sign of `String.compareTo` (all the comparison operators use): -1, 0 or 1, and 0 exactly on equal strings |
| Values.CompareValues | src/main/java/plc/project/Interpreter.java:243-250 | `compareTo` succeeds exactly on two values of the same class, with a result in -1..1 |
| Values.Arith | src/main/java/plc/project/Interpreter.java:251-331 | an arithmetic operator never yields a list or NIL |
| Values.IntPow | src/main/java/plc/project/Interpreter.java:310-318 | no contract of its own: the integer `^` loop's product, one for a negative exponent; `InterpreterProps.IntegerPower` states what `^` yields on Integers and `InterpreterProps.IntPowAdd` that exponents add |
| Values.DecPowNat | src/main/java/plc/project/Interpreter.java:319-322 | no contract of its own: `ONE` multiplied `n` times exactly; `InterpreterProps.DecPowNatExact` states it is the unscaled power with `n` times the scale |
| Values.DecPow | src/main/java/plc/project/Interpreter.java:319-328 | no contract of its own: the decimal `^`, one for a negative exponent; `InterpreterProps.DecimalPower` states what `^` yields on a Decimal base |
| Values.Holds | src/main/java/plc/project/Interpreter.java:243-250 | no contract of its own: the comparison operator applied to the sign of `compareTo`; `InterpreterProps.DecimalEqualityIgnoresScale` shows `==` holding on decimals of different scales |
| Semantics.Enter | src/main/java/plc/project/Interpreter.java:89 | `new Scope(parent)` adds one empty frame with that parent and makes it current, keeping lists and output |
| Semantics.NewScope | src/main/java/plc/project/Interpreter.java:158 | `scope = new Scope(scope)` adds a frame whose parent is the old current scope |
| Semantics.ParentScope | src/main/java/plc/project/Interpreter.java:169 | `scope.getParent()` moves to the parent frame, and fails exactly when there is no current scope |
| Semantics.FindVariable | src/main/java/plc/project/Interpreter.java:134 | a found frame is on or above the starting frame and defines the name; a failure is `UndefinedVariable(name)` |
| Semantics.FindVariableNearest | src/main/java/plc/project/Interpreter.java:134 | the search returns the nearest frame on the parent chain that defines the name, and fails exactly when no frame on the chain defines it |
| Semantics.Chain | src/main/java/plc/project/Interpreter.java:169 | the parent chain of a frame holds the frame itself and only frames at or below its index |
| Semantics.LookupVariable | src/main/java/plc/project/Interpreter.java:352 | `lookupVariable` yields an existing frame that defines the name |
| Semantics.LookupVariableNearest | src/main/java/plc/project/Interpreter.java:352 | `lookupVariable` with no current scope is a `NullPointerException`; otherwise it yields the nearest defining frame on the current scope's chain, and fails exactly when none defines the name |
| Semantics.CellOf | src/main/java/plc/project/Interpreter.java:352 | the variable cell a frame holds never refers to a list that does not exist |
| Semantics.FindFunction | src/main/java/plc/project/Interpreter.java:362 | a found function closes over an existing scope; a failure is `UndefinedFunction(name, arity)` |
| Semantics.FindFunctionNearest | src/main/java/plc/project/Interpreter.java:362 | the search returns the function of the nearest frame on the parent chain that defines (name, arity), and fails exactly when no frame on the chain defines it |
| Semantics.LookupFunction | src/main/java/plc/project/Interpreter.java:362 | `lookupFunction` yields a function whose scope exists |
| Semantics.LookupFunctionNearest | src/main/java/plc/project/Interpreter.java:362 | `lookupFunction` with no current scope is a `NullPointerException`; otherwise it yields the nearest definition on the current scope's chain, and fails exactly when none defines (name, arity) |
| Semantics.DefineVariable | src/main/java/plc/project/Interpreter.java:122-124 | defining succeeds exactly when the current scope lacks the name, and adds exactly that cell to it |
| Semantics.DefineFunction | src/main/java/plc/project/Interpreter.java:86 | defining succeeds exactly when the current scope lacks that (name, arity), and adds exactly that function |
| Semantics.SetVariable | src/main/java/plc/project/Interpreter.java:146 | `setValue` replaces the cell's value and keeps its mutability, scope, lists and output |
| Semantics.SetElement | src/main/java/plc/project/Interpreter.java:144 | `vars.set` replaces exactly one element of one list |
| Semantics.Allocate | src/main/java/plc/project/Interpreter.java:365-372 | a list literal allocates a new list holding the element values and returns a reference to it |
| Semantics.Eval | src/main/java/plc/project/Interpreter.java:217-372 | evaluation only extends the state and yields a value whose list exists |
| Semantics.EvalArgs | src/main/java/plc/project/Interpreter.java:358-360 | arguments are evaluated left to right into one value each |
| Semantics.EvalBinary | src/main/java/plc/project/Interpreter.java:233-338 | a binary's extra evaluation of the left operand and its dispatch only extend the state |
| Semantics.Dispatch | src/main/java/plc/project/Interpreter.java:239-337 | operator dispatch only extends the state |
| Semantics.EvalLogical | src/main/java/plc/project/Interpreter.java:239-242 | `&&`/`||` only extend the state |
| Semantics.EvalComparison | src/main/java/plc/project/Interpreter.java:243-250 | comparisons only extend the state |
| Semantics.EvalArithmetic | src/main/java/plc/project/Interpreter.java:251-331 | arithmetic only extends the state |
| Semantics.EvalIndex | src/main/java/plc/project/Interpreter.java:342-350 | indexed access only extends the state |
| Semantics.Invoke | src/main/java/plc/project/Interpreter.java:15-18 | a call, to `print` or to a closure, restores the caller's scope |
| Semantics.Apply | src/main/java/plc/project/Interpreter.java:86-106 | a closure call restores the caller's scope afterwards, as the `finally` does |
| Semantics.BindParams | src/main/java/plc/project/Interpreter.java:90-94 | binding parameters keeps the current scope and the lists |
| Semantics.ExecBlock | src/main/java/plc/project/Interpreter.java:97-99 | a block only extends the state, and a returned value's list exists |
| Semantics.ExecStmt | src/main/java/plc/project/Interpreter.java:110-215 | a statement only extends the state |
| Semantics.ExecAssignment | src/main/java/plc/project/Interpreter.java:129-153 | an assignment only extends the state |
| Semantics.AssignIndex | src/main/java/plc/project/Interpreter.java:138-144 | an indexed assignment only extends the state |
| Semantics.ExecIf | src/main/java/plc/project/Interpreter.java:156-171 | an `IF` only extends the state |
| Semantics.ExecBranch | src/main/java/plc/project/Interpreter.java:159-169 | a branch of an `IF` only extends the state |
| Semantics.SwitchScan | src/main/java/plc/project/Interpreter.java:176-189 | the case scan only extends the state |
| Semantics.ExecWhile | src/main/java/plc/project/Interpreter.java:198-209 | a `WHILE` only extends the state |
| Semantics.DefineGlobal | src/main/java/plc/project/Interpreter.java:60-78 | a global only extends the state |
| Semantics.DefineFunctionDecl | src/main/java/plc/project/Interpreter.java:83-108 | a function declaration only extends the state |
| Semantics.DefineGlobals | src/main/java/plc/project/Interpreter.java:49-50 | the globals, in order, only extend the state |
| Semantics.DefineFunctions | src/main/java/plc/project/Interpreter.java:51-52 | the functions, in order, only extend the state |
| Semantics.Initial | src/main/java/plc/project/Interpreter.java:13-18 | `new Interpreter(parent)`: one new frame, child of the parent's current scope, holding only `print`/1, becomes current; lists and output are kept |
| Semantics.Run | src/main/java/plc/project/Interpreter.java:48-57 | running a source from any well-formed state, which calls `main` with no arguments, only extends that state |
| Interpreting.IntPower | src/main/java/plc/project/Interpreter.java:310-318 | the `^` loop on integers computes base to the power n for n >= 0, and 1 for n < 0 |
| Interpreting.DecPower | src/main/java/plc/project/Interpreter.java:319-327 | the `^` loop on decimals computes the exact power, with scale n times the base's, or 1 for n < 0 |
| Interpreting.PowerOf | src/main/java/plc/project/Interpreter.java:307-331 | `^` returns what `Power` gives for the operand values |
| Interpreting.Interpreter.constructor | src/main/java/plc/project/Interpreter.java:13-18 | the new interpreter over a parent state is in the state `Initial(parent)` gives |
| Interpreting.Interpreter.PushScope | src/main/java/plc/project/Interpreter.java:158 | `scope = new Scope(parent)` leaves the state `Enter` gives |
| Interpreting.Interpreter.PopScope | src/main/java/plc/project/Interpreter.java:169 | `scope = scope.getParent()` leaves the state `ParentScope` gives, or its error |
| Interpreting.Interpreter.VisitExpr | src/main/java/plc/project/Interpreter.java:217-372 | an expression visit ends in the value and state `Eval` gives |
| Interpreting.Interpreter.VisitArguments | src/main/java/plc/project/Interpreter.java:358-360 | the argument loop ends as `EvalArgs` does |
| Interpreting.Interpreter.VisitBinary | src/main/java/plc/project/Interpreter.java:233-338 | a binary visit ends as `EvalBinary` does |
| Interpreting.Interpreter.VisitLogical | src/main/java/plc/project/Interpreter.java:239-242 | `&&`/`||` end as `EvalLogical` does |
| Interpreting.Interpreter.VisitComparison | src/main/java/plc/project/Interpreter.java:243-250 | comparisons end as `EvalComparison` does |
| Interpreting.Interpreter.VisitArithmetic | src/main/java/plc/project/Interpreter.java:251-331 | arithmetic ends as `EvalArithmetic` does |
| Interpreting.Interpreter.VisitIndex | src/main/java/plc/project/Interpreter.java:342-350 | indexed access ends as `EvalIndex` does |
| Interpreting.Interpreter.VisitCall | src/main/java/plc/project/Interpreter.java:357-363 | a call ends as `Eval` does |
| Interpreting.Interpreter.InvokeFunction | src/main/java/plc/project/Interpreter.java:15-18 | invoking `print` or a closure ends as `Invoke` does |
| Interpreting.Interpreter.CallClosure | src/main/java/plc/project/Interpreter.java:86-106 | a closure call ends as `Apply` does |
| Interpreting.Interpreter.BindParameters | src/main/java/plc/project/Interpreter.java:90-94 | the parameter loop ends as `BindParams` does |
| Interpreting.Interpreter.VisitBlock | src/main/java/plc/project/Interpreter.java:97-99 | the statement loop ends as `ExecBlock` does |
| Interpreting.Interpreter.VisitStmt | src/main/java/plc/project/Interpreter.java:110-215 | a statement visit ends as `ExecStmt` does |
| Interpreting.Interpreter.VisitAssignment | src/main/java/plc/project/Interpreter.java:129-153 | an assignment ends as `ExecAssignment` does |
| Interpreting.Interpreter.AssignElement | src/main/java/plc/project/Interpreter.java:138-144 | an indexed assignment ends as `AssignIndex` does |
| Interpreting.Interpreter.VisitIf | src/main/java/plc/project/Interpreter.java:156-171 | an `IF` ends as `ExecIf` does |
| Interpreting.Interpreter.VisitSwitch | src/main/java/plc/project/Interpreter.java:173-190 | a `SWITCH` ends as `SwitchScan` does from the first case |
| Interpreting.Interpreter.VisitWhile | src/main/java/plc/project/Interpreter.java:198-209 | a `WHILE` ends as `ExecWhile` does |
| Interpreting.Interpreter.WhileIteration | src/main/java/plc/project/Interpreter.java:200-205 | one iteration either finishes the loop as `ExecWhile` does or leaves a state from which `ExecWhile` gives the same result |
| Interpreting.Interpreter.VisitGlobal | src/main/java/plc/project/Interpreter.java:60-78 | a global ends as `DefineGlobal` does |
| Interpreting.Interpreter.VisitFunction | src/main/java/plc/project/Interpreter.java:83-108 | a function declaration ends as `DefineFunctionDecl` does |
| Interpreting.Interpreter.VisitSource | src/main/java/plc/project/Interpreter.java:48-57 | a source ends as `Run` does from the state the interpreter held |
| Interpreting.Interpreter.VisitGlobals | src/main/java/plc/project/Interpreter.java:49-50 | the global loop ends as `DefineGlobals` does |
| Interpreting.Interpreter.VisitFunctions | src/main/java/plc/project/Interpreter.java:51-52 | the function loop ends as `DefineFunctions` does |
| InterpreterProps.DivisionByZeroFails | src/main/java/plc/project/Interpreter.java:292-301 | an Integer or Decimal division by a zero divisor is an error whatever the dividend |
| InterpreterProps.QuotientIsTruncated | src/main/java/plc/project/Interpreter.java:292-297 | a nonzero integer divisor gives the quotient truncated toward zero |
| InterpreterProps.QuotientUnique | src/main/java/plc/project/Interpreter.java:292-297 | the truncated quotient is the only integer with its properties |
| InterpreterProps.DivisionExamples | src/main/java/plc/project/Interpreter.java:292-297 | `/` on Integers truncates toward zero: -7 / 2 is -3, 7 / -2 is -3 and -7 / -2 is 3 |
| InterpreterProps.DecAddExact | src/main/java/plc/project/Interpreter.java:258-262 | the decimal sum is exact at every common scale |
| InterpreterProps.DecSubExact | src/main/java/plc/project/Interpreter.java:270-274 | the decimal difference is exact at every common scale |
| InterpreterProps.DecMulExact | src/main/java/plc/project/Interpreter.java:282-286 | the decimal product is exact: at the sum of any two scales no smaller than the operands', it is the product of the operands |
| InterpreterProps.DecCompareAnyScale | src/main/java/plc/project/Interpreter.java:243-250 | decimal comparison is the sign of the difference at any common scale |
| InterpreterProps.DecimalEqualityIgnoresScale | src/main/java/plc/project/Interpreter.java:243-250 | `1.0 == 1.00` holds by `compareTo` although the two values differ |
| InterpreterProps.PlusConcatenates | src/main/java/plc/project/Interpreter.java:251-256 | `+` with a String on either side yields both operands' text concatenated |
| InterpreterProps.PlusAddsExactly | src/main/java/plc/project/Interpreter.java:251-264 | otherwise `+` needs the right operand of the left's numeric kind and yields the exact sum; any other left is an error |
| InterpreterProps.IntegerPower | src/main/java/plc/project/Interpreter.java:310-318 | integer `^` gives 1 for exponent 0, multiplies by the base per step, gives 1 for a negative exponent, and adds exponents |
| InterpreterProps.DecimalPower | src/main/java/plc/project/Interpreter.java:319-331 | decimal `^` gives the exact power, 1 for a negative exponent, and a Decimal exponent is a type error |
| InterpreterProps.DecPowNatExact | src/main/java/plc/project/Interpreter.java:319-327 | the decimal power loop raises the unscaled value to n and multiplies the scale by n |
| InterpreterProps.ShortCircuit | src/main/java/plc/project/Interpreter.java:238-242 | `&&`/`||` evaluate the right operand only when the left does not decide the result; a non-Boolean operand is an error |
| InterpreterProps.UnknownOperatorYieldsNil | src/main/java/plc/project/Interpreter.java:334-337 | an unknown operator evaluates the right operand and yields NIL |
| InterpreterProps.LeftOperandRunsTwice | src/main/java/plc/project/Interpreter.java:238-256 | `print("x") + "y"` prints `x` twice, because the left operand is evaluated before dispatch and again inside it |
| InterpreterProps.IndexChecksBounds | src/main/java/plc/project/Interpreter.java:342-350 | indexed access yields the element when the index is in [0, size-1], else "Offset out of range!" |
| InterpreterProps.IndexedAssignmentReplacesOne | src/main/java/plc/project/Interpreter.java:138-144 | an in-range indexed assignment replaces exactly that element and leaves every other list element, scope and output unchanged |
| InterpreterProps.IndexedAssignmentOutOfRange | src/main/java/plc/project/Interpreter.java:137-141 | an indexed assignment whose offset is outside `[0, size - 1]` fails with "Offset out of range!", and does so whatever the value expression is, since the value is not evaluated |
| InterpreterProps.ImmutableAssignmentFails | src/main/java/plc/project/Interpreter.java:134-136 | assigning to an immutable variable is an error raised before the offset or value is evaluated |
| InterpreterProps.BindParamsBinds | src/main/java/plc/project/Interpreter.java:90-94 | parameter j is bound to a mutable cell holding argument j, and nothing else changes |
| InterpreterProps.CallBindsInFreshScope | src/main/java/plc/project/Interpreter.java:88-94 | a call binds its parameters, and only them, in a fresh child of the definition scope |
| InterpreterProps.CallResult | src/main/java/plc/project/Interpreter.java:96-105 | a call returns the first executed `RETURN` value, or NIL if the body completes, with the caller's scope restored |
| InterpreterProps.SwitchRunsFirstMatch | src/main/java/plc/project/Interpreter.java:177-182 | when the condition and the case values evaluate without changing the state, the first valued case equal to the condition runs its body, and no other case runs |
| InterpreterProps.SwitchRunsLastOtherwise | src/main/java/plc/project/Interpreter.java:175-188 | when the condition and the case values evaluate without changing the state and no valued case matches, the last case's body runs, whatever its label; with no cases at all, `get(-1)` fails |
| InterpreterProps.SwitchNeverPops | src/main/java/plc/project/Interpreter.java:175-189 | a switch with empty bodies whose condition and case values evaluate without changing the state ends in the scope it pushed, which differs from the one it started in |
| InterpreterProps.EmptyCasesKeepState | src/main/java/plc/project/Interpreter.java:177-188 | a scan over cases with empty bodies, whose values evaluate without changing the state, changes nothing |
| InterpreterProps.IfPushesThenPops | src/main/java/plc/project/Interpreter.java:158-169 | for any condition: an `IF` evaluates it in a new child scope; a non-Boolean is a type error; a Boolean runs the chosen branch from the state the condition left, then, unless the branch returned, pops one scope or fails with no scope |
| InterpreterProps.IfRestoresScope | src/main/java/plc/project/Interpreter.java:158-169 | an `IF` on a Boolean literal with empty branches returns to the scope it started in, leaving the frame it pushed behind |
| InterpreterProps.WhileFalsePops | src/main/java/plc/project/Interpreter.java:200-207 | a `WHILE` whose condition is false pops one scope, or fails when there is none |
| InterpreterProps.WhileIterates | src/main/java/plc/project/Interpreter.java:200-205 | a true condition runs the body in a new nested scope and loops from the state after it |
| InterpreterProps.WhileFalseLosesGlobalScope | src/main/java/plc/project/Interpreter.java:198-209 | `WHILE FALSE` run in a new interpreter's scope pops it, leaving the constructor's parent current; when that parent is `null`, every variable lookup then fails |
| InterpreterProps.GlobalDefaults | src/main/java/plc/project/Interpreter.java:60-78 | an immutable global without a value is an error; a mutable one is defined as NIL |
| GeneratorSpec.Done | src/main/java/plc/project/Generator.java:19 | a completed write of exactly the given text |
| GeneratorSpec.Then | src/main/java/plc/project/Generator.java:14-22 | consecutive prints: the second is written only if the first completed |
| GeneratorSpec.Spaces | src/main/java/plc/project/Generator.java:26-28 | k indentation steps are 4k spaces |
| GeneratorSpec.Newline | src/main/java/plc/project/Generator.java:24-29 | `newline(k)` writes one line break followed by exactly k copies of four spaces |
| GeneratorSpec.GenLiteral | src/main/java/plc/project/Generator.java:226-239 | a literal is written to the end exactly when it is not NIL; string and character literals are written between their quotes |
| GeneratorSpec.GenInit | src/main/java/plc/project/Generator.java:123-126 | an initialiser is written to the end exactly when there is none or its expression is, and then ends with `;` |
| GeneratorSpec.GenGlobalAsWritten | src/main/java/plc/project/Generator.java:60-79 | as written, a global is written to the end exactly when it has no value or its value is |
| GeneratorSpec.GenGlobal | src/main/java/plc/project/Generator.java:60-79 | with the space after `final`, a global is written to the end exactly when it has no value or its value is |
| GeneratorSpec.GenParams | src/main/java/plc/project/Generator.java:83-94 | the parameters from a position on are written to the end exactly when none are left or every parameter has a type name |
| GeneratorSpec.GenExpr | src/main/java/plc/project/Generator.java:226-297 | no contract of its own: `Generating.Generator.VisitExpr` appends exactly its text; `GeneratorProps.ExprCompletes` states it completes exactly when the expression holds no NIL literal, and `GeneratorProps.BinaryText`, `GeneratorProps.CallText` and `GeneratorProps.ListText` state the text written |
| GeneratorSpec.GenArgs | src/main/java/plc/project/Generator.java:270-278 | no contract of its own: the arguments separated by `, `; `GeneratorProps.ArgsComplete` and `GeneratorProps.ArgsAreJoined` state when it completes and that its text is the joined texts |
| GeneratorSpec.GenStmt | src/main/java/plc/project/Generator.java:110-224 | no contract of its own: `Generating.Generator.VisitStmt` appends exactly its text; `GeneratorProps.StmtCompletes` states it completes exactly when the statement holds no NIL literal, `GeneratorProps.IfText` and `GeneratorProps.EmptyBlock` state texts written |
| GeneratorSpec.GenElse | src/main/java/plc/project/Generator.java:150-162 | no contract of its own: `Generating.Generator.VisitElse` appends exactly its text; `GeneratorProps.IfText` states nothing is written for an empty else part and ` else {` then the block otherwise |
| GeneratorSpec.GenBody | src/main/java/plc/project/Generator.java:140-149 | no contract of its own: `Generating.Generator.VisitBody` appends exactly its text; `GeneratorProps.BodyText` states the statements one per line one level deeper then `}` on its own line, `GeneratorProps.EmptyBlock` a bare `}` for no statements |
| GeneratorSpec.GenStmts | src/main/java/plc/project/Generator.java:98-101 | no contract of its own: `Generating.Generator.VisitStmts` appends exactly its text; `GeneratorProps.StmtsComplete` states when it completes and `GeneratorProps.BlockLines` that its text is each statement on a new line |
| GeneratorSpec.GenLine | src/main/java/plc/project/Generator.java:99-100 | no contract of its own: `Generating.Generator.VisitLine` appends exactly its text, a line break at the current level then the statement; `GeneratorProps.BlockLines` states the lines it makes |
| GeneratorSpec.GenLabel | src/main/java/plc/project/Generator.java:183-189 | no contract of its own: `Generating.Generator.VisitLabel` appends exactly its text; `GeneratorProps.ValuedCaseText` and `GeneratorProps.DefaultCaseText` state `case v:` or `default:` after a line break |
| GeneratorSpec.GenCase | src/main/java/plc/project/Generator.java:182-201 | no contract of its own: `Generating.Generator.VisitCase` appends exactly its text; `GeneratorProps.ValuedCaseText` and `GeneratorProps.DefaultCaseText` state the text, `break;` following only a valued case, and `GeneratorProps.CaseCompletes` when it completes |
| GeneratorSpec.GenCases | src/main/java/plc/project/Generator.java:170-172 | no contract of its own: `Generating.Generator.VisitCases` appends exactly its text; `GeneratorProps.CasesComplete` states it completes exactly when no case holds a NIL literal |
| GeneratorSpec.GenFunction | src/main/java/plc/project/Generator.java:82-107 | no contract of its own: `Generating.Generator.VisitFunction` appends exactly its text; `GeneratorProps.FunctionsComplete` states when it completes and `GeneratorProps.BodyText` the body written |
| GeneratorSpec.GenGlobals | src/main/java/plc/project/Generator.java:37-40 | no contract of its own: `Generating.Generator.VisitGlobalLines` appends exactly its text; `GeneratorProps.GlobalsComplete` states it completes exactly when no global value holds a NIL literal |
| GeneratorSpec.GenFunctions | src/main/java/plc/project/Generator.java:50-53 | no contract of its own: `Generating.Generator.VisitFunctions` appends exactly its text; `GeneratorProps.FunctionsComplete` states it completes exactly when every function has a type for each parameter and no NIL literal in its body |
| GeneratorSpec.MainMethod | src/main/java/plc/project/Generator.java:42-49 | no contract of its own: `Generating.Generator.WriteMain` appends exactly its text; `GeneratorProps.MainMethodText` states the text at level one |
| GeneratorSpec.GenGlobalSection | src/main/java/plc/project/Generator.java:35-41 | no contract of its own: `Generating.Generator.VisitGlobals` appends exactly its text, nothing for no globals; `GeneratorProps.SourceCompletes` and `GeneratorProps.EmptySource` use it |
| GeneratorSpec.GenClassRest | src/main/java/plc/project/Generator.java:42-56 | no contract of its own: `Generating.Generator.VisitClassRest` appends exactly its text; `GeneratorProps.SourceCompletes` and `GeneratorProps.EmptySource` use it |
| GeneratorSpec.GenSource | src/main/java/plc/project/Generator.java:31-58 | no contract of its own: `Generating.Generator.VisitSource` appends exactly its text; `GeneratorProps.SourceCompletes` states when a source is written to the end and `GeneratorProps.EmptySource` the whole text of an empty one |
| Generating.Generator.constructor | src/main/java/plc/project/Generator.java:10-12 | a new generator has empty output and indent 0 |
| Generating.Generator.Write | src/main/java/plc/project/Generator.java:14-22 | `print` of text appends exactly that text |
| Generating.Generator.NewlineAt | src/main/java/plc/project/Generator.java:24-29 | the `newline` loop appends exactly `Newline(k)` and keeps `indent` |
| Generating.Generator.VisitEnclosed | src/main/java/plc/project/Generator.java:242-245 | text, an expression, text: appends the specified text and keeps `indent` |
| Generating.Generator.VisitExpr | src/main/java/plc/project/Generator.java:226-297 | an expression visit appends exactly `GenExpr`'s text and keeps `indent` |
| Generating.Generator.VisitLiteral | src/main/java/plc/project/Generator.java:226-239 | a literal visit appends exactly its specified text |
| Generating.Generator.VisitBinary | src/main/java/plc/project/Generator.java:247-256 | a binary visit appends exactly its specified text |
| Generating.Generator.VisitAccess | src/main/java/plc/project/Generator.java:258-265 | an access visit appends exactly its specified text |
| Generating.Generator.VisitCall | src/main/java/plc/project/Generator.java:267-281 | a call visit appends exactly its specified text |
| Generating.Generator.VisitList | src/main/java/plc/project/Generator.java:283-297 | a list visit appends exactly its specified text |
| Generating.Generator.VisitArgs | src/main/java/plc/project/Generator.java:272-278 | the argument loop appends exactly `GenArgs`'s text |
| Generating.Generator.VisitSeparated | src/main/java/plc/project/Generator.java:286-293 | the comma-separated loop appends exactly `GenArgs`'s text |
| Generating.Generator.VisitStmt | src/main/java/plc/project/Generator.java:110-224 | a statement visit appends exactly `GenStmt`'s text and restores `indent` |
| Generating.Generator.VisitDeclaration | src/main/java/plc/project/Generator.java:117-129 | a declaration appends exactly its specified text |
| Generating.Generator.VisitAssignment | src/main/java/plc/project/Generator.java:131-135 | an assignment appends exactly its specified text |
| Generating.Generator.VisitWhile | src/main/java/plc/project/Generator.java:203-218 | a `while` appends exactly its specified text and restores `indent` |
| Generating.Generator.VisitInit | src/main/java/plc/project/Generator.java:123-126 | a declaration's initialiser appends exactly its specified text |
| Generating.Generator.VisitIf | src/main/java/plc/project/Generator.java:137-164 | an `if` appends exactly its specified text and restores `indent` |
| Generating.Generator.VisitElse | src/main/java/plc/project/Generator.java:150-162 | the else part appends exactly its specified text |
| Generating.Generator.VisitSwitch | src/main/java/plc/project/Generator.java:166-179 | a `switch` appends exactly its specified text and restores `indent` |
| Generating.Generator.VisitCases | src/main/java/plc/project/Generator.java:170-172 | the case loop appends exactly `GenCases`'s text |
| Generating.Generator.VisitCase | src/main/java/plc/project/Generator.java:181-201 | a case appends exactly its specified text and restores `indent` |
| Generating.Generator.VisitLabel | src/main/java/plc/project/Generator.java:183-189 | a case label appends exactly its specified text |
| Generating.Generator.VisitBody | src/main/java/plc/project/Generator.java:97-106 | a braced block body appends exactly `GenBody`'s text and restores `indent` |
| Generating.Generator.WriteClosing | src/main/java/plc/project/Generator.java:103-106 | a block's closing brace comes on a new line only when the block is non-empty |
| Generating.Generator.VisitStmts | src/main/java/plc/project/Generator.java:98-101 | the statement loop appends exactly `GenStmts`'s text |
| Generating.Generator.VisitLine | src/main/java/plc/project/Generator.java:99-100 | one statement on a new line appends exactly its specified text |
| Generating.Generator.VisitGlobal | src/main/java/plc/project/Generator.java:60-79 | a global appends exactly `GenGlobalAsWritten`'s text, `final` with no space after it, and keeps `indent` |
| Generating.Generator.VisitParams | src/main/java/plc/project/Generator.java:83-94 | the parameter loop appends exactly `GenParams`'s text |
| Generating.Generator.VisitFunction | src/main/java/plc/project/Generator.java:81-108 | a function appends exactly `GenFunction`'s text and restores `indent` |
| Generating.Generator.VisitSource | src/main/java/plc/project/Generator.java:31-58 | a source appends exactly `GenSource`'s text and leaves `indent` one deeper |
| Generating.Generator.VisitClassRest | src/main/java/plc/project/Generator.java:49-56 | the functions and class end append exactly their specified text |
| Generating.Generator.WriteClassEnd | src/main/java/plc/project/Generator.java:54-56 | the class ends with two line breaks and `}` |
| Generating.Generator.WriteMain | src/main/java/plc/project/Generator.java:42-48 | the main method appends exactly `MainMethod`'s text and keeps `indent` |
| Generating.Generator.VisitGlobals | src/main/java/plc/project/Generator.java:35-41 | the global section appends exactly its specified text |
| Generating.Generator.VisitGlobalLines | src/main/java/plc/project/Generator.java:37-40 | the global loop appends exactly `GenGlobals`'s text |
| Generating.Generator.VisitGlobalLine | src/main/java/plc/project/Generator.java:38-39 | one global on a new line appends exactly its specified text |
| Generating.Generator.VisitFunctions | src/main/java/plc/project/Generator.java:50-53 | the function loop appends exactly `GenFunctions`'s text |
| Generating.Generator.VisitFunctionLine | src/main/java/plc/project/Generator.java:51-52 | one function on a new line appends exactly its specified text |
| GeneratorProps.ExprCompletes | src/main/java/plc/project/Generator.java:14-22 | an expression is written to the end exactly when it holds no NIL literal |
| GeneratorProps.ArgsComplete | src/main/java/plc/project/Generator.java:272-278 | arguments are written to the end exactly when none holds a NIL literal |
| GeneratorProps.StmtCompletes | src/main/java/plc/project/Generator.java:110-224 | a statement is written to the end exactly when it holds no NIL literal |
| GeneratorProps.StmtsComplete | src/main/java/plc/project/Generator.java:98-101 | statements are written to the end exactly when none holds a NIL literal |
| GeneratorProps.CaseCompletes | src/main/java/plc/project/Generator.java:181-201 | a case is written to the end exactly when it holds no NIL literal |
| GeneratorProps.CasesComplete | src/main/java/plc/project/Generator.java:170-172 | cases are written to the end exactly when none holds a NIL literal |
| GeneratorProps.ParamsComplete | src/main/java/plc/project/Generator.java:83-94 | a parameter list is written to the end exactly when every parameter has a type name |
| GeneratorProps.SourceCompletes | src/main/java/plc/project/Generator.java:31-58 | a source is written to the end exactly when no global or body holds NIL and every parameter has a type |
| GeneratorProps.GlobalsComplete | src/main/java/plc/project/Generator.java:37-40 | globals are written to the end exactly when no initialiser holds NIL |
| GeneratorProps.FunctionsComplete | src/main/java/plc/project/Generator.java:50-53 | functions are written to the end exactly when every parameter has a type and no body holds NIL |
| GeneratorProps.ArgsAreJoined | src/main/java/plc/project/Generator.java:267-297 | arguments and list elements are joined by `, ` with no leading or trailing separator |
| GeneratorProps.CallText | src/main/java/plc/project/Generator.java:267-281 | a call is its function name, then the `, `-joined arguments in parentheses |
| GeneratorProps.ListText | src/main/java/plc/project/Generator.java:283-297 | a list literal is its `, `-joined values between `{` and `}` |
| GeneratorProps.BinaryText | src/main/java/plc/project/Generator.java:247-256 | `^` is `Math.pow(l, r)`; every other binary is `l op r` with one space on each side |
| GeneratorProps.QuotedLiteralsAreNotEscaped | src/main/java/plc/project/Generator.java:226-239 | string and character literals are wrapped in quotes without being escaped again |
| GeneratorProps.NilStopsMidStatement | src/main/java/plc/project/Generator.java:14-22 | printing a NIL literal stops the visit with the text so far written |
| GeneratorProps.EmptyBlock | src/main/java/plc/project/Generator.java:103-106 | a block with no statements is `{` immediately followed by `}` |
| GeneratorProps.BlockLines | src/main/java/plc/project/Generator.java:98-101 | each statement is written on its own line at the given indent |
| GeneratorProps.BodyText | src/main/java/plc/project/Generator.java:97-106 | a non-empty body is its lines one level deeper, then `}` on a line at the entry level |
| GeneratorProps.IfText | src/main/java/plc/project/Generator.java:137-164 | the else block is written only when the else list is non-empty |
| GeneratorProps.ValuedCaseText | src/main/java/plc/project/Generator.java:181-201 | a valued case is `case v:`, its body one level deeper, then `break;` |
| GeneratorProps.DefaultCaseText | src/main/java/plc/project/Generator.java:181-201 | the value-less case is `default:` and its body, with no `break;` |
| GeneratorProps.FinalRunsIntoType | src/main/java/plc/project/Generator.java:60-79 | as written, an immutable `Integer` global comes out as `finalint x = 1;` |
| GeneratorProps.GlobalText | src/main/java/plc/project/Generator.java:60-79 | with the space, a global is `final ` if immutable, its type, `[]` for a list, its name, the initialiser and `;` |
| GeneratorProps.FinalSpaceOnly | src/main/java/plc/project/Generator.java:62-64 | the code as written and the corrected text differ only by the space after `final` |
| GeneratorProps.MainMethodText | src/main/java/plc/project/Generator.java:42-44 | the main method begins after a blank line, at indent one |
| GeneratorProps.EmptySource | src/main/java/plc/project/Generator.java:31-58 | an empty source is the class header, the main method and the closing brace |

## Left out

- The lexer and the analyzer are not part of this model.
  - Tokens are given as a sequence of (kind, literal, offset) records.
  - The analyzer's resolved names are a `Resolver` the generator is given.
- `Scope`, `Environment`, `Ast` and `Token` are not part of this model. Scopes are
  modelled as parent-chained frames. Defining a name that the current scope
  already holds is assumed to be an `AlreadyDefined` error.
- Console output of the `print` builtin is an output log of the printed texts,
  without the line separator `System.out.println` adds after each.
- GeneratorSpec.Newline: `newline` calls `writer.println()`, which writes the
  platform's line separator. The model writes `"\n"` for it, the separator on
  Unix-like systems; on Windows the Java code writes `"\r\n"` instead.
- The text of NIL, of decimals and of lists in `+` concatenation is a parameter
  (`Show`). So are `BigDecimal.toString` and the JVM type names in the generator.
- Values.StrCompare: it gives only the sign of `String.compareTo`, not the
  code-unit or length difference Java returns; the operators use only the sign.
  Characters are compared as Unicode scalar values, whereas Java compares UTF-16
  code units; the two orders differ only when a character above U+FFFF is
  compared with one in U+E000 to U+FFFF.
- Literals.DecimalValue: only plain notation is decoded. `new BigDecimal` also
  accepts exponent notation such as `1e5`, with a negative scale the model's
  `scale: nat` cannot hold. Every DECIMAL token in
  src/test/java/plc/project/LexerTests.java is plain; the lexer itself is not
  part of this model.
- Non-termination is bounded: every call and every loop iteration spends one unit
  of `fuel`, and running out is an `OutOfFuel` error the Java code does not have.
- The interpreter's state after a runtime error is not modelled: an error ends the
  run.
- Values.Holds: it has no contract of its own. What each comparison operator
  yields is stated through `Values.CompareValues` and the comparison lemmas.
- Semantics.CellOf: its contract states only that the cell refers to existing
  lists. Which frame holds the cell is stated by `Semantics.LookupVariableNearest`.
- Semantics functions (`Semantics.Eval` … `Semantics.Run`): their own contracts
  state the invariant each keeps, that the state only extends. What they compute
  is stated by the `InterpreterProps` lemmas, and the `Interpreting` methods are
  proved equal to them.
- ParserSpec functions (`ParserSpec.Expression` … `ParserSpec.SourceDecl`): their
  own contracts state only progress and bounds. The grammar they define is stated
  by the `ParserProps` and `ParserExamples` lemmas, and the `Parsing` methods are
  proved equal to them.
- Values.Arith: states only the kind of result; each operator's result is stated
  by the `InterpreterProps` lemmas.
- Decimal division rounds half-even at the dividend's scale and is stated by its
  bound, not by Java's `BigDecimal.divide` digit by digit.
- The literal's type is taken from the token kind; other token kinds reaching a
  literal position are the parser's "Invalid expression!" error.
- GeneratorSpec.GenLiteral: it chooses the quotes by the class of the literal's
  value (a String between `"`, a Character between `'`). Generator.java:228-234
  chooses them by `ast.getType()`, the type the analyzer gave the literal. The
  model assumes that type matches the value's class (STRING for a String,
  CHARACTER for a Character, neither for any other value); the analyzer is not
  part of this model.
- Generating: when a visit throws part-way (a NIL literal), the model keeps the
  text written up to that point. It does not say what `indent` then holds.
- Consecutive `print` calls of plain text are modelled as one write of their
  concatenation.

## Findings

| source | as written | input that shows it | evidently intended | confidence | as-written member | corrected member |
|---|---|---|---|---|---|---|
| src/main/java/plc/project/Parser.java:443-449 | replaces `\\` by `\` before replacing `\n`, `\r`, `\t`, `\b` | a string token whose text is the escaped form of backslash followed by `n`, i.e. `"\\n"` | each escape read once, giving backslash followed by `n` | not executed | Literals.UnescapeString, Literals.StringValue, LiteralProps.UnescapeStringLosesBackslash | Literals.UnescapeFixed, Literals.StringValueFixed, LiteralProps.StringValueFixedRoundTrip |
| src/main/java/plc/project/Generator.java:62-64 | prints `final` with no space after it | an immutable global `VAL x: Integer = 1;` is generated as `finalint x = 1;` | `final int x = 1;` | not executed | GeneratorSpec.GenGlobalAsWritten, GeneratorProps.FinalRunsIntoType | GeneratorSpec.GenGlobal, GeneratorProps.GlobalText |

In both rows the rest of the model follows the code as written: the parser decodes
string tokens with `Literals.StringValue`, and the generator writes globals with
`GeneratorSpec.GenGlobalAsWritten`. The corrected definitions stand beside them with
their properties proved.
