/**
 * The abstract syntax tree shared by the parser, the interpreter and the generator,
 * and the token record the parser consumes.
 */
module Ast {
  import opened Common

  /** Kinds of token produced by the lexer. Keywords arrive as identifiers. */
  datatype TokenKind = Identifier | Integer | Decimal | Character | String | Operator

  /** A token: its kind, its literal text and its offset in the source text. */
  datatype Token = Token(kind: TokenKind, literal: string, offset: int)

  /**
   * An arbitrary-precision decimal `unscaled * 10^-scale`, as `java.math.BigDecimal`
   * represents it. Two values are `equals` exactly when both fields agree.
   */
  datatype BigDecimal = BigDecimal(unscaled: int, scale: nat)

  /** The Java object held by a literal node. */
  datatype Literal =
    | LNil
    | LBool(b: bool)
    | LInt(i: int)
    | LDec(d: BigDecimal)
    | LChar(c: char)
    | LStr(s: string)

  datatype Expr =
    | Literal(lit: Literal)
    | Group(inner: Expr)
    | Binary(op: string, left: Expr, right: Expr)
    | Access(offset: Option<Expr>, name: string)
    | Call(fname: string, args: seq<Expr>)
    | PlcList(values: seq<Expr>)

  datatype Stmt =
    | ExprStmt(expr: Expr)
    | Declaration(name: string, typeName: Option<string>, init: Option<Expr>)
    | Assignment(receiver: Expr, rhs: Expr)
    | If(cond: Expr, thenBody: seq<Stmt>, elseBody: seq<Stmt>)
    | Switch(cond: Expr, cases: seq<Case>)
    | While(cond: Expr, body: seq<Stmt>)
    | Return(result: Expr)

  datatype Case = Case(value: Option<Expr>, body: seq<Stmt>)

  datatype Global = Global(name: string, typeName: Option<string>, mutable: bool, value: Option<Expr>)

  datatype Function = Function(
    name: string, params: seq<string>, paramTypes: seq<string>,
    returnType: Option<string>, body: seq<Stmt>)

  datatype Source = Source(globals: seq<Global>, functions: seq<Function>)

  // Sizes, used as termination measures by the interpreter and the generator.

  function ExprSize(e: Expr): (n: nat)
    ensures n >= 1
  {
    match e
    case Literal(_) => 1
    case Group(inner) => 1 + ExprSize(inner)
    case Binary(_, l, r) => 1 + ExprSize(l) + ExprSize(r)
    case Access(offset, _) => if offset.Some? then 1 + ExprSize(offset.value) else 1
    case Call(_, args) => 1 + ExprsSize(args)
    case PlcList(values) => 1 + ExprsSize(values)
  }

  function ExprsSize(es: seq<Expr>): (n: nat)
    ensures n >= 1
  {
    if es == [] then 1 else ExprSize(es[0]) + ExprsSize(es[1..])
  }

  function StmtSize(s: Stmt): (n: nat)
    ensures n >= 1
  {
    match s
    case ExprStmt(e) => 1 + ExprSize(e)
    case Declaration(_, _, v) => if v.Some? then 1 + ExprSize(v.value) else 1
    case Assignment(r, v) => 1 + ExprSize(r) + ExprSize(v)
    case If(c, t, e) => 1 + ExprSize(c) + StmtsSize(t) + StmtsSize(e)
    case Switch(c, cs) => 1 + ExprSize(c) + CasesSize(cs)
    case While(c, b) => 2 + ExprSize(c) + StmtsSize(b)
    case Return(v) => 1 + ExprSize(v)
  }

  function StmtsSize(ss: seq<Stmt>): (n: nat)
    ensures n >= 1
  {
    if ss == [] then 1 else StmtSize(ss[0]) + StmtsSize(ss[1..])
  }

  function CaseSize(c: Case): (n: nat)
    ensures n >= 1
  {
    (if c.value.Some? then ExprSize(c.value.value) else 0) + StmtsSize(c.body)
  }

  function CasesSize(cs: seq<Case>): (n: nat)
    ensures n >= 1
  {
    if cs == [] then 1 else CaseSize(cs[0]) + CasesSize(cs[1..])
  }

  lemma {:induction false} ExprsSizeAt(es: seq<Expr>, i: nat)
    requires i < |es|
    ensures ExprSize(es[i]) < ExprsSize(es)
    ensures ExprsSize(es[i + 1..]) < ExprsSize(es[i..])
  {
    if i > 0 {
      ExprsSizeAt(es[1..], i - 1);
      assert es[1..][i - 1..] == es[i..];
      assert es[1..][i..] == es[i + 1..];
    }
  }

  lemma {:induction false} StmtsSizeAt(ss: seq<Stmt>, i: nat)
    requires i < |ss|
    ensures StmtSize(ss[i]) < StmtsSize(ss)
    ensures StmtsSize(ss[i..]) <= StmtsSize(ss)
  {
    if i > 0 {
      StmtsSizeAt(ss[1..], i - 1);
      assert ss[1..][i - 1..] == ss[i..];
    }
  }

  lemma {:induction false} CasesSizeAt(cs: seq<Case>, i: nat)
    requires i < |cs|
    ensures CaseSize(cs[i]) < CasesSize(cs)
    ensures CasesSize(cs[i..]) <= CasesSize(cs)
  {
    if i > 0 {
      CasesSizeAt(cs[1..], i - 1);
      assert cs[1..][i - 1..] == cs[i..];
    }
  }
}
