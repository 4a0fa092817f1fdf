/**
 * Properties of the text the code generator writes (module GeneratorSpec): when a visit
 * completes, what a list of expressions, a case, an `if` and an empty block look like,
 * the exact program written for an empty source, and the `final` keyword of a global.
 */
module GeneratorProps {
  import opened Common
  import opened Ast
  import opened GeneratorSpec

  // ---------------------------------------------------------------- when generation completes

  /** An expression holds a NIL literal somewhere (printing one calls `toString()` on `null`). */
  predicate ExprHasNil(e: Expr)
    decreases e, 1
  {
    match e
    case Literal(lit) => lit.LNil?
    case Group(inner) => ExprHasNil(inner)
    case Binary(_, l, r) => ExprHasNil(l) || ExprHasNil(r)
    case Access(offset, _) => offset.Some? && ExprHasNil(offset.value)
    case Call(_, args) => AnyHasNil(args)
    case PlcList(values) => AnyHasNil(values)
  }

  predicate AnyHasNil(es: seq<Expr>)
    decreases es, 0
  {
    exists j :: 0 <= j < |es| && ExprHasNil(es[j])
  }

  /** An expression is written to the end exactly when it holds no NIL literal. */
  lemma {:induction false} ExprCompletes(rv: Resolver, e: Expr)
    ensures GenExpr(rv, e).ok <==> !ExprHasNil(e)
    decreases e, 1
  {
    match e
    case Literal(_) =>
    case Group(inner) => ExprCompletes(rv, inner);
    case Binary(_, l, r) => ExprCompletes(rv, l); ExprCompletes(rv, r);
    case Access(offset, _) => if offset.Some? { ExprCompletes(rv, offset.value); }
    case Call(_, args) => ArgsComplete(rv, args, 0);
    case PlcList(values) => ArgsComplete(rv, values, 0);
  }

  /** A list of expressions from `i` is written to the end exactly when none of them holds a NIL literal. */
  lemma {:induction false} ArgsComplete(rv: Resolver, es: seq<Expr>, i: nat)
    requires i <= |es|
    ensures GenArgs(rv, es, i).ok <==> forall j :: i <= j < |es| ==> !ExprHasNil(es[j])
    ensures i == 0 ==> (GenArgs(rv, es, i).ok <==> !AnyHasNil(es))
    decreases es, 0, |es| - i
  {
    if i < |es| {
      ExprCompletes(rv, es[i]);
      if i < |es| - 1 {
        ArgsComplete(rv, es, i + 1);
      }
    }
  }

  predicate StmtHasNil(s: Stmt)
    decreases s, 2
  {
    match s
    case ExprStmt(e) => ExprHasNil(e)
    case Declaration(_, _, init) => init.Some? && ExprHasNil(init.value)
    case Assignment(receiver, rhs) => ExprHasNil(receiver) || ExprHasNil(rhs)
    case If(cond, thenBody, elseBody) => ExprHasNil(cond) || StmtsHaveNil(thenBody) || StmtsHaveNil(elseBody)
    case Switch(cond, cases) => ExprHasNil(cond) || exists j :: 0 <= j < |cases| && CaseHasNil(cases[j])
    case While(cond, body) => ExprHasNil(cond) || StmtsHaveNil(body)
    case Return(e) => ExprHasNil(e)
  }

  predicate StmtsHaveNil(ss: seq<Stmt>)
    decreases ss, 0
  {
    exists j :: 0 <= j < |ss| && StmtHasNil(ss[j])
  }

  predicate CaseHasNil(c: Case)
    decreases c, 1
  {
    (c.value.Some? && ExprHasNil(c.value.value)) || StmtsHaveNil(c.body)
  }

  /** A statement is written to the end exactly when it holds no NIL literal, at any level. */
  lemma {:induction false} StmtCompletes(rv: Resolver, s: Stmt, k: nat)
    ensures GenStmt(rv, s, k).ok <==> !StmtHasNil(s)
    decreases s, 2
  {
    match s
    case ExprStmt(e) => ExprCompletes(rv, e);
    case Declaration(_, _, init) => if init.Some? { ExprCompletes(rv, init.value); }
    case Assignment(receiver, rhs) => ExprCompletes(rv, receiver); ExprCompletes(rv, rhs);
    case If(cond, thenBody, elseBody) =>
      ExprCompletes(rv, cond);
      StmtsComplete(rv, thenBody, 0, k + 1);
      StmtsComplete(rv, elseBody, 0, k + 1);
      assert GenElse(rv, elseBody, k).ok <==> !StmtsHaveNil(elseBody);
    case Switch(cond, cases) =>
      ExprCompletes(rv, cond);
      CasesComplete(rv, cases, 0, k + 1);
    case While(cond, body) =>
      ExprCompletes(rv, cond);
      StmtsComplete(rv, body, 0, k + 1);
    case Return(e) => ExprCompletes(rv, e);
  }

  lemma {:induction false} StmtsComplete(rv: Resolver, ss: seq<Stmt>, i: nat, k: nat)
    requires i <= |ss|
    ensures GenStmts(rv, ss, i, k).ok <==> forall j :: i <= j < |ss| ==> !StmtHasNil(ss[j])
    ensures i == 0 ==> (GenStmts(rv, ss, i, k).ok <==> !StmtsHaveNil(ss))
    decreases ss, 0, |ss| - i
  {
    if i < |ss| {
      StmtCompletes(rv, ss[i], k);
      StmtsComplete(rv, ss, i + 1, k);
    }
  }

  lemma {:induction false} CaseCompletes(rv: Resolver, c: Case, k: nat)
    ensures GenCase(rv, c, k).ok <==> !CaseHasNil(c)
    decreases c, 1
  {
    if c.value.Some? {
      ExprCompletes(rv, c.value.value);
    }
    StmtsComplete(rv, c.body, 0, k + 1);
  }

  lemma {:induction false} CasesComplete(rv: Resolver, cs: seq<Case>, i: nat, k: nat)
    requires i <= |cs|
    ensures GenCases(rv, cs, i, k).ok <==> forall j :: i <= j < |cs| ==> !CaseHasNil(cs[j])
    decreases cs, 2, |cs| - i
  {
    if i < |cs| {
      CaseCompletes(rv, cs[i], k);
      CasesComplete(rv, cs, i + 1, k);
      assert GenCases(rv, cs, i, k).ok <==> GenCase(rv, cs[i], k).ok && GenCases(rv, cs, i + 1, k).ok;
      assert (forall j :: i <= j < |cs| ==> !CaseHasNil(cs[j]))
        <==> !CaseHasNil(cs[i]) && forall j :: i + 1 <= j < |cs| ==> !CaseHasNil(cs[j]);
    }
  }

  /** The parameter list from `i` is written to the end exactly when every parameter has a type name. */
  lemma {:induction false} ParamsComplete(rv: Resolver, f: Function, i: nat)
    requires i <= |f.params|
    ensures GenParams(rv, f, i).ok <==> (i == |f.params| || |f.paramTypes| >= |f.params|)
    decreases |f.params| - i
  {
    if i < |f.params| && i < |f.paramTypes| {
      ParamsComplete(rv, f, i + 1);
    }
  }

  /**
   * A whole source is written to the end exactly when no global and no function body
   * holds a NIL literal and every parameter has a type name.
   */
  lemma SourceCompletes(rv: Resolver, src: Source, k: nat)
    ensures GenSource(rv, src, k).ok <==>
      (forall j :: 0 <= j < |src.globals| ==> !(src.globals[j].value.Some? && ExprHasNil(src.globals[j].value.value)))
      && (forall j :: 0 <= j < |src.functions| ==>
            |src.functions[j].paramTypes| >= |src.functions[j].params| && !StmtsHaveNil(src.functions[j].body))
  {
    GlobalsComplete(rv, src.globals, 0, k + 1);
    FunctionsComplete(rv, src.functions, 0, k + 1);
    assert GenGlobalSection(rv, src.globals, k + 1).ok <==> GenGlobals(rv, src.globals, 0, k + 1).ok;
    assert GenClassRest(rv, src.functions, k + 1).ok <==> GenFunctions(rv, src.functions, 0, k + 1).ok;
  }

  lemma {:induction false} GlobalsComplete(rv: Resolver, gs: seq<Global>, i: nat, k: nat)
    requires i <= |gs|
    ensures GenGlobals(rv, gs, i, k).ok <==> forall j :: i <= j < |gs| ==> !(gs[j].value.Some? && ExprHasNil(gs[j].value.value))
    decreases |gs| - i
  {
    if i < |gs| {
      if gs[i].value.Some? {
        ExprCompletes(rv, gs[i].value.value);
      }
      GlobalsComplete(rv, gs, i + 1, k);
    }
  }

  lemma {:induction false} FunctionsComplete(rv: Resolver, fs: seq<Function>, i: nat, k: nat)
    requires i <= |fs|
    ensures GenFunctions(rv, fs, i, k).ok <==>
      forall j :: i <= j < |fs| ==> |fs[j].paramTypes| >= |fs[j].params| && !StmtsHaveNil(fs[j].body)
    decreases |fs| - i
  {
    if i < |fs| {
      ParamsComplete(rv, fs[i], 0);
      StmtsComplete(rv, fs[i].body, 0, k + 1);
      FunctionsComplete(rv, fs, i + 1, k);
    }
  }

  // ---------------------------------------------------------------- expressions

  /** Strings joined with a separator between neighbours. */
  function Join(ts: seq<string>, sep: string): (r: string)
    ensures |ts| == 1 ==> r == ts[0]
    ensures |ts| == 0 ==> r == ""
  {
    if |ts| == 0 then "" else if |ts| == 1 then ts[0] else ts[0] + sep + Join(ts[1..], sep)
  }

  /** The texts of expressions, each written on its own. */
  function Texts(rv: Resolver, es: seq<Expr>): (ts: seq<string>)
    ensures |ts| == |es|
    ensures forall j :: 0 <= j < |es| ==> ts[j] == GenExpr(rv, es[j]).text
  {
    if es == [] then [] else [GenExpr(rv, es[0]).text] + Texts(rv, es[1..])
  }

  /**
   * The arguments of a call and the elements of a list are the expressions' own texts
   * joined with `, ` (no trailing separator), once they all complete.
   */
  lemma {:induction false} ArgsAreJoined(rv: Resolver, es: seq<Expr>, i: nat)
    requires i <= |es|
    requires forall j :: i <= j < |es| ==> GenExpr(rv, es[j]).ok
    ensures GenArgs(rv, es, i) == Done(Join(Texts(rv, es[i..]), ", "))
    decreases |es| - i
  {
    if i < |es| - 1 {
      ArgsAreJoined(rv, es, i + 1);
      var ts := Texts(rv, es[i..]);
      assert ts[1..] == Texts(rv, es[i + 1..]);
    }
  }

  /** A call's text: the function's JVM name, then its joined arguments in parentheses. */
  lemma CallText(rv: Resolver, e: Expr)
    requires e.Call? && forall j :: 0 <= j < |e.args| ==> GenExpr(rv, e.args[j]).ok
    ensures GenExpr(rv, e) == Done(rv.callee(e) + "(" + Join(Texts(rv, e.args), ", ") + ")")
  {
    ArgsAreJoined(rv, e.args, 0);
    assert e.args[0..] == e.args;
  }

  /** A list literal's text: its joined values between `{` and `}`, as a Java array initialiser. */
  lemma ListText(rv: Resolver, e: Expr)
    requires e.PlcList? && forall j :: 0 <= j < |e.values| ==> GenExpr(rv, e.values[j]).ok
    ensures GenExpr(rv, e) == Done("{" + Join(Texts(rv, e.values), ", ") + "}")
  {
    ArgsAreJoined(rv, e.values, 0);
    assert e.values[0..] == e.values;
  }

  /** `^` is written as a call to `Math.pow`, every other operator between its operands with a space each side. */
  lemma BinaryText(rv: Resolver, op: string, l: Expr, r: Expr)
    requires GenExpr(rv, l).ok && GenExpr(rv, r).ok
    ensures op == "^" ==>
      GenExpr(rv, Binary(op, l, r)) == Done("Math.pow(" + GenExpr(rv, l).text + ", " + GenExpr(rv, r).text + ")")
    ensures op != "^" ==>
      GenExpr(rv, Binary(op, l, r)) == Done(GenExpr(rv, l).text + " " + op + " " + GenExpr(rv, r).text)
  {
  }

  /**
   * A string or character literal is written between quotes with its text as it is:
   * a quote inside it is not escaped again, so `"a\"b"` holding `a"b` comes out as `"a"b"`.
   */
  lemma QuotedLiteralsAreNotEscaped(rv: Resolver)
    ensures GenExpr(rv, Literal(LStr("a\"b"))) == Done("\"a\"b\"")
    ensures GenExpr(rv, Literal(LChar('\''))) == Done("'''")
    ensures GenExpr(rv, Literal(LChar('\n'))) == Done("'\n'")
  {
  }

  /** Printing NIL throws after everything before it was written: `return NIL;` leaves `return `. */
  lemma NilStopsMidStatement(rv: Resolver, k: nat)
    ensures GenStmt(rv, Return(Literal(LNil)), k) == Emit("return ", false)
    ensures GenStmt(rv, ExprStmt(Binary("+", Literal(LStr("x")), Literal(LNil))), k) == Emit("\"x\" + ", false)
  {
  }

  // ---------------------------------------------------------------- statements

  /** An empty block is `{}` on the line that opens it. */
  lemma EmptyBlock(rv: Resolver, cond: Expr, k: nat)
    requires GenExpr(rv, cond).ok
    ensures GenBody(rv, [], k) == Done("}")
    ensures GenStmt(rv, While(cond, []), k) == Done("while (" + GenExpr(rv, cond).text + ") {}")
  {
  }

  /**
   * A block's statements are each on a new line one level deeper than the block, and
   * the closing brace is on a line of its own at the block's level.
   */
  lemma {:induction false} BlockLines(rv: Resolver, ss: seq<Stmt>, i: nat, k: nat)
    requires i <= |ss|
    requires forall j :: i <= j < |ss| ==> GenStmt(rv, ss[j], k).ok
    ensures GenStmts(rv, ss, i, k) == Done(Lines(rv, ss[i..], k))
    decreases |ss| - i
  {
    if i < |ss| {
      BlockLines(rv, ss, i + 1, k);
      assert ss[i..][1..] == ss[i + 1..];
    }
  }

  /** Each statement after a line break at level `k`. */
  function Lines(rv: Resolver, ss: seq<Stmt>, k: nat): (r: string)
    ensures |ss| > 0 ==> |r| > 4 * k && r[..1 + 4 * k] == Newline(k)
  {
    if ss == [] then "" else Newline(k) + GenStmt(rv, ss[0], k).text + Lines(rv, ss[1..], k)
  }

  lemma BodyText(rv: Resolver, ss: seq<Stmt>, k: nat)
    requires |ss| > 0 && forall j :: 0 <= j < |ss| ==> GenStmt(rv, ss[j], k + 1).ok
    ensures GenBody(rv, ss, k) == Done(Lines(rv, ss, k + 1) + Newline(k) + "}")
  {
    BlockLines(rv, ss, 0, k + 1);
    assert ss[0..] == ss;
  }

  /** The else part is written only when there are else statements. */
  lemma IfText(rv: Resolver, s: Stmt, k: nat)
    requires s.If? && GenExpr(rv, s.cond).ok && GenBody(rv, s.thenBody, k).ok
    ensures var main := "if (" + GenExpr(rv, s.cond).text + ") {" + GenBody(rv, s.thenBody, k).text;
      GenStmt(rv, s, k).text == if |s.elseBody| == 0 then main else main + " else {" + GenBody(rv, s.elseBody, k).text
  {
  }

  /**
   * A valued case is `case v:`, its body one level deeper and `break;` on a line of its
   * own at that level.
   */
  lemma ValuedCaseText(rv: Resolver, c: Case, k: nat)
    requires c.value.Some? && GenExpr(rv, c.value.value).ok && GenStmts(rv, c.body, 0, k + 1).ok
    ensures GenCase(rv, c, k) ==
      Done(Newline(k) + "case " + GenExpr(rv, c.value.value).text + ":" + GenStmts(rv, c.body, 0, k + 1).text
        + Newline(k + 1) + "break;")
  {
    var v := GenExpr(rv, c.value.value).text;
    var body := GenStmts(rv, c.body, 0, k + 1).text;
    var head := "case " + v + ":";
    var brk := Newline(k + 1) + "break;";
    assert Enclosed(rv, "case ", c.value.value, ":") == Done(head);
    assert GenLabel(rv, c, k) == Done(Newline(k) + head);
    assert Then(GenLabel(rv, c, k), GenStmts(rv, c.body, 0, k + 1)) == Done(Newline(k) + head + body);
    assert GenCase(rv, c, k) == Done(Newline(k) + head + body + brk);
    assert Newline(k) + "case " + v + ":" == Newline(k) + head;
  }

  /** The default case is `default:` and its body one level deeper, with no `break;`. */
  lemma DefaultCaseText(rv: Resolver, c: Case, k: nat)
    requires c.value.None? && GenStmts(rv, c.body, 0, k + 1).ok
    ensures GenCase(rv, c, k) == Done(Newline(k) + "default:" + GenStmts(rv, c.body, 0, k + 1).text)
  {
  }

  // ---------------------------------------------------------------- globals and the source

  /**
   * As Generator.java:62-65 writes it, an immutable global's `final` runs into its type:
   * `VAL x: Integer = 1;` becomes `finalint x = 1;`.
   */
  lemma FinalRunsIntoType(rv: Resolver)
    requires rv.globalType(Global("x", Some("Integer"), false, Some(Literal(LInt(1))))) == "int"
    ensures GenGlobalAsWritten(rv, Global("x", Some("Integer"), false, Some(Literal(LInt(1))))) == Done("finalint x = 1;")
  {
    assert IntToString(1) == "1";
  }

  /**
   * With the space restored, an immutable global starts with the keyword `final` as a
   * word of its own, and a mutable one with its type.
   */
  lemma GlobalText(rv: Resolver, g: Global)
    requires g.value.Some? ==> GenExpr(rv, g.value.value).ok
    ensures var isList := g.value.Some? && g.value.value.PlcList?;
      GenGlobal(rv, g) == Done((if g.mutable then "" else "final ") + rv.globalType(g) + (if isList then "[]" else "")
        + " " + g.name + (if g.value.Some? then " = " + GenExpr(rv, g.value.value).text else "") + ";")
  {
  }

  /** What follows `final` in an immutable global's text: the type, `[]` for a list, the name and the initialiser. */
  function GlobalRest(rv: Resolver, g: Global): string
  {
    var isList := g.value.Some? && g.value.value.PlcList?;
    rv.globalType(g) + (if isList then "[]" else "") + " " + g.name + GenInit(rv, g.value).text
  }

  lemma AsWrittenFinalText(rv: Resolver, g: Global)
    requires !g.mutable
    ensures GenGlobalAsWritten(rv, g).text == "final" + GlobalRest(rv, g)
  {
    var isList := g.value.Some? && g.value.value.PlcList?;
    var t := rv.globalType(g) + (if isList then "[]" else "");
    assert "final" + t + " " + g.name + GenInit(rv, g.value).text == "final" + GlobalRest(rv, g);
  }

  lemma CorrectedFinalText(rv: Resolver, g: Global)
    requires !g.mutable
    ensures GenGlobal(rv, g).text == "final " + GlobalRest(rv, g)
  {
    var isList := g.value.Some? && g.value.value.PlcList?;
    var t := rv.globalType(g) + (if isList then "[]" else "");
    assert "final " + t + " " + g.name + GenInit(rv, g.value).text == "final " + GlobalRest(rv, g);
  }

  /** The code as written and the corrected generation differ only in that one space. */
  lemma FinalSpaceOnly(rv: Resolver, g: Global)
    ensures GenGlobalAsWritten(rv, g).ok == GenGlobal(rv, g).ok
    ensures g.mutable ==> GenGlobalAsWritten(rv, g) == GenGlobal(rv, g)
    ensures !g.mutable ==> GenGlobal(rv, g).text == "final " + GenGlobalAsWritten(rv, g).text[|"final"|..]
  {
    if !g.mutable {
      AsWrittenFinalText(rv, g);
      CorrectedFinalText(rv, g);
      assert ("final" + GlobalRest(rv, g))[|"final"|..] == GlobalRest(rv, g);
    }
  }

  /** The fixed `main(String[])` one level into the class. */
  lemma MainMethodText()
    ensures MainMethod(1) == "\n" + "\n    " + "public static void main(String[] args) {"
      + "\n        " + "System.exit(new Main().main());" + "\n    " + "}" + "\n"
  {
    assert Spaces(1) == "    " && Spaces(2) == "        ";
  }

  /** The whole program written for a source with no globals and no functions. */
  lemma EmptySource(rv: Resolver)
    ensures GenSource(rv, Source([], []), 0) == Done("public class Main {" + MainMethod(1) + "\n\n}")
  {
    var h := "public class Main {";
    var m := MainMethod(1);
    assert GenGlobalSection(rv, [], 1) == Done("");
    assert GenFunctions(rv, [], 0, 1) == Done("");
    assert Newline(0) + Newline(0) + "}" == "\n\n}";
    assert GenClassRest(rv, [], 1) == Done(m + "\n\n}");
    assert Then(Done(h), Done("")) == Done(h);
    assert h + (m + "\n\n}") == h + m + "\n\n}";
  }
}
