/**
 * The text the Java code generator (Generator.java) writes for each node, as pure
 * functions of the node and of the indentation level on entry.
 *
 * The names the analyzer resolved (the JVM name of a variable, a function or a type)
 * and the text of a `BigDecimal` are outside the generator; a `Resolver` supplies them.
 * A visit can stop part-way: printing a NIL literal calls `toString()` on `null`. An
 * `Emit` records the text written up to that point and whether the visit completed.
 */
module GeneratorSpec {
  import opened Common
  import opened Ast

  /** The analyzer's resolved names, and the text of a decimal literal. */
  datatype Resolver = Resolver(
    globalType: Global -> string,      // the JVM name of a global's type
    returnType: Function -> string,    // the JVM name of a function's return type
    typeName: string -> string,        // the JVM name of a type named in the source
    declType: Stmt -> string,          // the JVM name of a declared variable's type
    variable: Expr -> string,          // the JVM name of the variable an access refers to
    callee: Expr -> string,            // the JVM name of the function a call refers to
    decimal: BigDecimal -> string)     // `BigDecimal.toString()`

  /** The text a visit wrote, and whether it completed (`false`: it threw part-way). */
  datatype Emit = Emit(text: string, ok: bool)

  function Done(s: string): (r: Emit)
    ensures r.ok && r.text == s
  {
    Emit(s, true)
  }

  /** `a` followed by `b`; `b` is not written when `a` threw. */
  function Then(a: Emit, b: Emit): (r: Emit)
    ensures r.ok <==> a.ok && b.ok
    ensures a.ok ==> r.text == a.text + b.text
    ensures !a.ok ==> r == a
  {
    if a.ok then Emit(a.text + b.text, b.ok) else a
  }

  /** `k` copies of four spaces. */
  function Spaces(k: nat): (s: string)
    ensures |s| == 4 * k
    ensures forall i :: 0 <= i < |s| ==> s[i] == ' '
  {
    if k == 0 then "" else "    " + Spaces(k - 1)
  }

  /** What `newline(k)` writes: a line break, then `k` copies of four spaces. */
  function Newline(k: nat): (s: string)
    ensures |s| == 1 + 4 * k && s[0] == '\n' && s[1..] == Spaces(k)
  {
    "\n" + Spaces(k)
  }

  // ---------------------------------------------------------------- expressions

  /**
   * `visit(Ast.Expression.Literal)`: a string between double quotes, a character between
   * single quotes, anything else as its `toString()`. Nothing is escaped again.
   */
  function GenLiteral(rv: Resolver, lit: Literal): (r: Emit)
    ensures r.ok <==> !lit.LNil?
    ensures lit.LStr? || lit.LChar? ==>
      |r.text| >= 2 && r.text[0] == r.text[|r.text| - 1] == (if lit.LStr? then '"' else '\'')
  {
    match lit
    case LNil => Emit("", false)
    case LBool(b) => Done(if b then "true" else "false")
    case LInt(i) => Done(IntToString(i))
    case LDec(d) => Done(rv.decimal(d))
    case LChar(c) => Done("'" + [c] + "'")
    case LStr(s) => Done("\"" + s + "\"")
  }

  /** `prefix`, the expression, `suffix`: the shape of most of the generator's productions. */
  function Enclosed(rv: Resolver, prefix: string, e: Expr, suffix: string): Emit
    decreases e, 2
  {
    Then(Then(Done(prefix), GenExpr(rv, e)), Done(suffix))
  }

  function GenExpr(rv: Resolver, e: Expr): Emit
    decreases e, 1
  {
    match e
    case Literal(lit) => GenLiteral(rv, lit)
    case Group(inner) => Enclosed(rv, "(", inner, ")")
    case Binary(op, l, r) =>
      if op == "^" then Then(Enclosed(rv, "Math.pow(", l, ""), Enclosed(rv, ", ", r, ")"))
      else Then(GenExpr(rv, l), Enclosed(rv, " " + op + " ", r, ""))
    case Access(offset, _) =>
      if offset.Some? then Enclosed(rv, rv.variable(e) + "[", offset.value, "]")
      else Done(rv.variable(e))
    case Call(_, args) => Then(Then(Done(rv.callee(e) + "("), GenArgs(rv, args, 0)), Done(")"))
    case PlcList(values) => Then(Then(Done("{"), GenArgs(rv, values, 0)), Done("}"))
  }

  /** The expressions from `i`, separated by `, `. */
  function GenArgs(rv: Resolver, es: seq<Expr>, i: nat): Emit
    requires i <= |es|
    decreases es, 0, |es| - i
  {
    if i == |es| then Done("")
    else if i == |es| - 1 then GenExpr(rv, es[i])
    else Then(Enclosed(rv, "", es[i], ", "), GenArgs(rv, es, i + 1))
  }

  // ---------------------------------------------------------------- statements

  /** The end of a declaration: ` = value` if there is one, then `;`. */
  function GenInit(rv: Resolver, init: Option<Expr>): (r: Emit)
    ensures r.ok <==> init.None? || GenExpr(rv, init.value).ok
    ensures r.ok ==> |r.text| > 0 && r.text[|r.text| - 1] == ';'
  {
    if init.Some? then Enclosed(rv, " = ", init.value, ";") else Done(";")
  }

  /** The closing brace of a block opened at level `k`: on a line of its own unless the block is empty. */
  function Closing(nonempty: bool, k: nat): string
  {
    (if nonempty then Newline(k) else "") + "}"
  }

  /** A statement written at indentation level `k` (the caller has written the line break). */
  function GenStmt(rv: Resolver, s: Stmt, k: nat): Emit
    decreases s, 2
  {
    match s
    case ExprStmt(e) => Enclosed(rv, "", e, ";")
    case Declaration(name, _, init) => Then(Done(rv.declType(s) + " " + name), GenInit(rv, init))
    case Assignment(receiver, rhs) => Then(GenExpr(rv, receiver), Enclosed(rv, " = ", rhs, ";"))
    case If(cond, thenBody, elseBody) =>
      Then(Then(Enclosed(rv, "if (", cond, ") {"), GenBody(rv, thenBody, k)), GenElse(rv, elseBody, k))
    case Switch(cond, cases) =>
      Then(Then(Enclosed(rv, "switch (", cond, ") {"), GenCases(rv, cases, 0, k + 1)), Done(Closing(|cases| > 0, k)))
    case While(cond, body) => Then(Enclosed(rv, "while (", cond, ") {"), GenBody(rv, body, k))
    case Return(e) => Enclosed(rv, "return ", e, ";")
  }

  /** The else part of an `if` at level `k`: nothing at all when there are no else statements. */
  function GenElse(rv: Resolver, ss: seq<Stmt>, k: nat): Emit
    decreases ss, 2
  {
    if |ss| == 0 then Done("") else Then(Done(" else {"), GenBody(rv, ss, k))
  }

  /** The statements of a block opened at level `k`, one level deeper, then the closing brace. */
  function GenBody(rv: Resolver, ss: seq<Stmt>, k: nat): Emit
    decreases ss, 1
  {
    Then(GenStmts(rv, ss, 0, k + 1), Done(Closing(|ss| > 0, k)))
  }

  /** The statements from `i`, each on a new line at level `k`. */
  function GenStmts(rv: Resolver, ss: seq<Stmt>, i: nat, k: nat): Emit
    requires i <= |ss|
    decreases ss, 0, |ss| - i
  {
    if i == |ss| then Done("")
    else Then(GenLine(rv, ss[i], k), GenStmts(rv, ss, i + 1, k))
  }

  /** One statement of a block: a line break, then the statement, at level `k`. */
  function GenLine(rv: Resolver, s: Stmt, k: nat): Emit
    decreases s, 3
  {
    Then(Done(Newline(k)), GenStmt(rv, s, k))
  }

  /** The label of a case at level `k`: a line break, then `default:` or `case v:`. */
  function GenLabel(rv: Resolver, c: Case, k: nat): Emit
    decreases c, 0
  {
    Then(Done(Newline(k)), if c.value.None? then Done("default:") else Enclosed(rv, "case ", c.value.value, ":"))
  }

  /**
   * `visit(Ast.Statement.Case)` at level `k`: the label, the body one level deeper, and
   * `break;` on a line of its own after a valued case only.
   */
  function GenCase(rv: Resolver, c: Case, k: nat): Emit
    decreases c, 1
  {
    Then(Then(GenLabel(rv, c, k), GenStmts(rv, c.body, 0, k + 1)), Done(if c.value.Some? then Newline(k + 1) + "break;" else ""))
  }

  function GenCases(rv: Resolver, cs: seq<Case>, i: nat, k: nat): Emit
    requires i <= |cs|
    decreases cs, 2, |cs| - i
  {
    if i == |cs| then Done("")
    else Then(GenCase(rv, cs[i], k), GenCases(rv, cs, i + 1, k))
  }

  // ---------------------------------------------------------------- globals, functions, source

  /**
   * `visit(Ast.Global)` as Generator.java:60-79 writes it: `final` for an immutable global
   * runs straight into the type name (`finalint`), which is not Java.
   */
  function GenGlobalAsWritten(rv: Resolver, g: Global): (r: Emit)
    ensures r.ok <==> g.value.None? || GenExpr(rv, g.value.value).ok
  {
    var isList := g.value.Some? && g.value.value.PlcList?;
    Then(Done((if g.mutable then "" else "final") + rv.globalType(g) + (if isList then "[]" else "") + " " + g.name),
         GenInit(rv, g.value))
  }

  /**
   * `visit(Ast.Global)` as intended: `final ` (with its separating space) for an immutable
   * global, the type, `[]` for a list, the name and the initial value.
   */
  function GenGlobal(rv: Resolver, g: Global): (r: Emit)
    ensures r.ok <==> g.value.None? || GenExpr(rv, g.value.value).ok
  {
    var isList := g.value.Some? && g.value.value.PlcList?;
    Then(Done((if g.mutable then "" else "final ") + rv.globalType(g) + (if isList then "[]" else "") + " " + g.name),
         GenInit(rv, g.value))
  }

  /** The parameters from `i`: the JVM type name, a space and the name, separated by `, `. */
  function GenParams(rv: Resolver, f: Function, i: nat): (r: Emit)
    requires i <= |f.params|
    ensures r.ok <==> i == |f.params| || |f.params| <= |f.paramTypes|
    decreases |f.params| - i
  {
    if i == |f.params| then Done("")
    else if i >= |f.paramTypes| then Emit("", false)
    else
      var sep := if i < |f.params| - 1 then ", " else "";
      Then(Done(rv.typeName(f.paramTypes[i]) + " " + f.params[i] + sep), GenParams(rv, f, i + 1))
  }

  /** `visit(Ast.Function)` at level `k`. */
  function GenFunction(rv: Resolver, f: Function, k: nat): Emit
  {
    Then(Then(Then(Done(rv.returnType(f) + " " + f.name + "("), GenParams(rv, f, 0)), Done(") {")), GenBody(rv, f.body, k))
  }

  function GenGlobals(rv: Resolver, gs: seq<Global>, i: nat, k: nat): Emit
    requires i <= |gs|
    decreases |gs| - i
  {
    if i == |gs| then Done("")
    else Then(Then(Done(Newline(k)), GenGlobalAsWritten(rv, gs[i])), GenGlobals(rv, gs, i + 1, k))
  }

  function GenFunctions(rv: Resolver, fs: seq<Function>, i: nat, k: nat): Emit
    requires i <= |fs|
    decreases |fs| - i
  {
    if i == |fs| then Done("")
    else Then(Then(Done(Newline(k)), GenFunction(rv, fs[i], k)), GenFunctions(rv, fs, i + 1, k))
  }

  /** The fixed `main(String[])` method that calls the source's `main()`, at level `k`. */
  function MainMethod(k: nat): string
  {
    Newline(0) + Newline(k) + "public static void main(String[] args) {"
    + Newline(k + 1) + "System.exit(new Main().main());"
    + Newline(k) + "}" + Newline(0)
  }

  /** The globals of a source at level `k`: nothing at all, or a blank line and then each global on a new line. */
  function GenGlobalSection(rv: Resolver, gs: seq<Global>, k: nat): Emit
  {
    if |gs| == 0 then Done("") else Then(Done(Newline(0)), GenGlobals(rv, gs, 0, k))
  }

  /** What follows the globals at level `k`: the fixed `main(String[])`, the functions and the closing brace. */
  function GenClassRest(rv: Resolver, fs: seq<Function>, k: nat): Emit
  {
    Then(Done(MainMethod(k)), Then(GenFunctions(rv, fs, 0, k), Done(Newline(0) + Newline(0) + "}")))
  }

  /**
   * `visit(Ast.Source)` entered at level `k`: the class header, the globals after a blank
   * line, the fixed `main(String[])`, the functions and the closing brace; members are
   * written one level deeper, and the level is left one deeper than on entry.
   */
  function GenSource(rv: Resolver, src: Source, k: nat): Emit
  {
    Then(Then(Done("public class Main {"), GenGlobalSection(rv, src.globals, k + 1)), GenClassRest(rv, src.functions, k + 1))
  }
}
