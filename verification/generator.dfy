/**
 * The Java code generator (Generator.java) as a class that appends to an output
 * buffer (the `PrintWriter`) and keeps the current indentation level in a field.
 * Every visit method is proved to append exactly the text its GeneratorSpec function
 * gives for the indentation level on entry; one that completes leaves the level as it
 * found it. A visit returns `false` where the Java method throws.
 */
module Generating {
  import opened Common
  import opened Ast
  import opened GeneratorSpec

  /** Text `b` written after a completed `a` is the text of `Then(a, b)`. */
  lemma Append(o0: string, o1: string, o2: string, a: Emit, b: Emit)
    requires a.ok && o1 == o0 + a.text && o2 == o1 + b.text
    ensures o2 == o0 + Then(a, b).text && Then(a, b).ok == b.ok
  {
  }

  /**
   * One step of a loop that has written `acc` of `goal`, where what remains is `step`
   * followed by `next`: after `step` is written, either it completed and `next` remains,
   * or it threw and the output is all of `goal`, which failed.
   */
  lemma Advance(o: string, acc: string, o1: string, o2: string, goal: Emit, step: Emit, next: Emit)
    requires goal == Then(Done(acc), Then(step, next)) && o1 == o + acc && o2 == o1 + step.text
    ensures step.ok ==> goal == Then(Done(acc + step.text), next) && o2 == o + (acc + step.text)
    ensures !step.ok ==> o2 == o + goal.text && !goal.ok
  {
  }

  /** Text `s` written after `x` extends `x`. */
  lemma Snoc(o0: string, x: string, o1: string, s: string, o2: string)
    requires o1 == o0 + x && o2 == o1 + s
    ensures o2 == o0 + (x + s)
  {
  }

  lemma ArgsUnfold(rv: Resolver, es: seq<Expr>, i: nat)
    requires i < |es| - 1
    ensures GenArgs(rv, es, i) == Then(Enclosed(rv, "", es[i], ", "), GenArgs(rv, es, i + 1))
  {
  }

  lemma StmtsUnfold(rv: Resolver, ss: seq<Stmt>, i: nat, k: nat)
    requires i < |ss|
    ensures GenStmts(rv, ss, i, k) == Then(GenLine(rv, ss[i], k), GenStmts(rv, ss, i + 1, k))
  {
  }

  lemma CasesUnfold(rv: Resolver, cs: seq<Case>, i: nat, k: nat)
    requires i < |cs|
    ensures GenCases(rv, cs, i, k) == Then(GenCase(rv, cs[i], k), GenCases(rv, cs, i + 1, k))
  {
  }

  lemma GlobalsUnfold(rv: Resolver, gs: seq<Global>, i: nat, k: nat)
    requires i < |gs|
    ensures GenGlobals(rv, gs, i, k) == Then(Then(Done(Newline(k)), GenGlobalAsWritten(rv, gs[i])), GenGlobals(rv, gs, i + 1, k))
  {
  }

  lemma FunctionsUnfold(rv: Resolver, fs: seq<Function>, i: nat, k: nat)
    requires i < |fs|
    ensures GenFunctions(rv, fs, i, k) == Then(Then(Done(Newline(k)), GenFunction(rv, fs[i], k)), GenFunctions(rv, fs, i + 1, k))
  {
  }

  lemma SpacesSnoc(k: nat)
    ensures Spaces(k) + "    " == Spaces(k + 1)
  {
    var s := Spaces(k) + "    ";
    assert |s| == |Spaces(k + 1)|;
    assert forall i :: 0 <= i < |s| ==> s[i] == Spaces(k + 1)[i];
  }

  class Generator {
    /** The analyzer's resolved names, which the generator only reads. */
    const rv: Resolver
    /** Everything written to the `PrintWriter` so far. */
    var out: string
    var indent: nat

    constructor (rv: Resolver)
      ensures this.rv == rv && out == [] && indent == 0
    {
      this.rv := rv;
      out := [];
      indent := 0;
    }

    /** `writer.write(s)`, which is what `print` does with an object that is not a node. */
    method Write(s: string)
      modifies this
      ensures out == old(out) + s && indent == old(indent)
    {
      out := out + s;
    }

    /** `newline(k)`: a line break, then `k` copies of four spaces. */
    method NewlineAt(k: nat)
      modifies this
      ensures out == old(out) + Newline(k) && indent == old(indent)
    {
      out := out + "\n";
      var i := 0;
      while i < k
        invariant i <= k && indent == old(indent)
        invariant out == old(out) + "\n" + Spaces(i)
      {
        out := out + "    ";
        SpacesSnoc(i);
        i := i + 1;
      }
    }


    // ---------------------------------------------------------------- expressions

    /** `print(prefix, e, suffix)`: the shape of most of the generator's productions. */
    method VisitEnclosed(prefix: string, e: Expr, suffix: string) returns (ok: bool)
      modifies this
      ensures out == old(out) + Enclosed(rv, prefix, e, suffix).text && ok == GenExpr(rv, e).ok
      ensures indent == old(indent)
      decreases e, 3
    {
      ghost var o0 := out;
      Write(prefix);
      ghost var o1 := out;
      ok := VisitExpr(e);
      Append(o0, o1, out, Done(prefix), GenExpr(rv, e));
      if !ok { return; }
      o1 := out;
      Write(suffix);
      Append(o0, o1, out, Then(Done(prefix), GenExpr(rv, e)), Done(suffix));
    }

    method VisitExpr(e: Expr) returns (ok: bool)
      modifies this
      ensures out == old(out) + GenExpr(rv, e).text && ok == GenExpr(rv, e).ok && indent == old(indent)
      decreases e, 2
    {
      match e
      case Literal(_) => ok := VisitLiteral(e);
      case Group(inner) => ok := VisitEnclosed("(", inner, ")");
      case Binary(_, _, _) => ok := VisitBinary(e);
      case Access(_, _) => ok := VisitAccess(e);
      case Call(_, _) => ok := VisitCall(e);
      case PlcList(_) => ok := VisitList(e);
    }

    /** `visit(Ast.Expression.Literal)`; a NIL literal makes `print` call `toString()` on `null`. */
    method VisitLiteral(e: Expr) returns (ok: bool)
      requires e.Literal?
      modifies this
      ensures out == old(out) + GenExpr(rv, e).text && ok == GenExpr(rv, e).ok && indent == old(indent)
      decreases e, 1
    {
      ok := true;
      match e.lit
      case LNil => ok := false;
      case LBool(b) => Write(if b then "true" else "false");
      case LInt(i) => Write(IntToString(i));
      case LDec(d) => Write(rv.decimal(d));
      case LChar(c) => Write("'"); Write([c]); Write("'");
      case LStr(s) => Write("\""); Write(s); Write("\"");
    }

    /** `visit(Ast.Expression.Binary)`: `^` becomes `Math.pow(l, r)`, any other operator `l op r`. */
    method VisitBinary(e: Expr) returns (ok: bool)
      requires e.Binary?
      modifies this
      ensures out == old(out) + GenExpr(rv, e).text && ok == GenExpr(rv, e).ok && indent == old(indent)
      decreases e, 1
    {
      ghost var o0 := out;
      ghost var first := if e.op == "^" then Enclosed(rv, "Math.pow(", e.left, "") else GenExpr(rv, e.left);
      if e.op == "^" {
        ok := VisitEnclosed("Math.pow(", e.left, "");
      } else {
        ok := VisitExpr(e.left);
      }
      if !ok { return; }
      ghost var o1 := out;
      if e.op == "^" {
        ok := VisitEnclosed(", ", e.right, ")");
        Append(o0, o1, out, first, Enclosed(rv, ", ", e.right, ")"));
      } else {
        ok := VisitEnclosed(" " + e.op + " ", e.right, "");
        Append(o0, o1, out, first, Enclosed(rv, " " + e.op + " ", e.right, ""));
      }
    }

    /** `visit(Ast.Expression.Access)`: the variable's JVM name, then `[offset]` if indexed. */
    method VisitAccess(e: Expr) returns (ok: bool)
      requires e.Access?
      modifies this
      ensures out == old(out) + GenExpr(rv, e).text && ok == GenExpr(rv, e).ok && indent == old(indent)
      decreases e, 1
    {
      if e.offset.Some? {
        ok := VisitEnclosed(rv.variable(e) + "[", e.offset.value, "]");
      } else {
        Write(rv.variable(e));
        ok := true;
      }
    }

    /** `visit(Ast.Expression.Function)`: the function's JVM name and the arguments in parentheses. */
    method VisitCall(e: Expr) returns (ok: bool)
      requires e.Call?
      modifies this
      ensures out == old(out) + GenExpr(rv, e).text && ok == GenExpr(rv, e).ok && indent == old(indent)
      decreases e, 1
    {
      ghost var o0 := out;
      Write(rv.callee(e) + "(");
      ghost var o1 := out;
      ok := VisitArgs(e.args);
      Append(o0, o1, out, Done(rv.callee(e) + "("), GenArgs(rv, e.args, 0));
      if !ok { return; }
      o1 := out;
      Write(")");
      Append(o0, o1, out, Then(Done(rv.callee(e) + "("), GenArgs(rv, e.args, 0)), Done(")"));
    }

    /** `visit(Ast.Expression.PlcList)`: the elements in braces. */
    method VisitList(e: Expr) returns (ok: bool)
      requires e.PlcList?
      modifies this
      ensures out == old(out) + GenExpr(rv, e).text && ok == GenExpr(rv, e).ok && indent == old(indent)
      decreases e, 1
    {
      ghost var o0 := out;
      Write("{");
      ghost var o1 := out;
      ok := VisitArgs(e.values);
      Append(o0, o1, out, Done("{"), GenArgs(rv, e.values, 0));
      if !ok { return; }
      o1 := out;
      Write("}");
      Append(o0, o1, out, Then(Done("{"), GenArgs(rv, e.values, 0)), Done("}"));
    }

    /**
     * The argument and element loops of a call and a list: one expression as it is;
     * several with `, ` after each but the last.
     */
    method VisitArgs(es: seq<Expr>) returns (ok: bool)
      modifies this
      ensures out == old(out) + GenArgs(rv, es, 0).text && ok == GenArgs(rv, es, 0).ok && indent == old(indent)
      decreases es, 1
    {
      ok := true;
      if |es| == 1 {
        ok := VisitExpr(es[0]);
      } else if |es| > 1 {
        ok := VisitSeparated(es);
      }
    }

    /** The loop over all expressions but the last, each followed by `, `, then the last. */
    method VisitSeparated(es: seq<Expr>) returns (ok: bool)
      requires |es| > 1
      modifies this
      ensures out == old(out) + GenArgs(rv, es, 0).text && ok == GenArgs(rv, es, 0).ok && indent == old(indent)
      decreases es, 0
    {
      ghost var acc := "";
      var i := 0;
      while i < |es| - 1
        invariant i <= |es| - 1 && indent == old(indent)
        invariant out == old(out) + acc
        invariant GenArgs(rv, es, 0) == Then(Done(acc), GenArgs(rv, es, i))
      {
        ghost var o := out;
        ghost var step := Enclosed(rv, "", es[i], ", ");
        ok := VisitEnclosed("", es[i], ", ");
        ArgsUnfold(rv, es, i);
        Advance(old(out), acc, o, out, GenArgs(rv, es, 0), step, GenArgs(rv, es, i + 1));
        if !ok { return; }
        acc := acc + step.text;
        i := i + 1;
      }
      ok := VisitExpr(es[i]);
    }

    // ---------------------------------------------------------------- statements

    method VisitStmt(s: Stmt) returns (ok: bool)
      modifies this
      ensures out == old(out) + GenStmt(rv, s, old(indent)).text && ok == GenStmt(rv, s, old(indent)).ok
      ensures ok ==> indent == old(indent)
      decreases s, 3
    {
      match s
      case ExprStmt(e) => ok := VisitEnclosed("", e, ";");
      case Declaration(_, _, _) => ok := VisitDeclaration(s);
      case Assignment(_, _) => ok := VisitAssignment(s);
      case If(_, _, _) => ok := VisitIf(s);
      case Switch(_, _) => ok := VisitSwitch(s);
      case While(_, _) => ok := VisitWhile(s);
      case Return(e) => ok := VisitEnclosed("return ", e, ";");
    }

    /** `visit(Ast.Statement.Declaration)`: the type, the name and the initial value, if any. */
    method VisitDeclaration(s: Stmt) returns (ok: bool)
      requires s.Declaration?
      modifies this
      ensures out == old(out) + GenStmt(rv, s, old(indent)).text && ok == GenStmt(rv, s, old(indent)).ok
      ensures indent == old(indent)
      decreases s, 2
    {
      ghost var o0 := out;
      Write(rv.declType(s) + " " + s.name);
      ghost var o1 := out;
      ok := VisitInit(s.init);
      Append(o0, o1, out, Done(rv.declType(s) + " " + s.name), GenInit(rv, s.init));
    }

    /** `visit(Ast.Statement.Assignment)`. */
    method VisitAssignment(s: Stmt) returns (ok: bool)
      requires s.Assignment?
      modifies this
      ensures out == old(out) + GenStmt(rv, s, old(indent)).text && ok == GenStmt(rv, s, old(indent)).ok
      ensures indent == old(indent)
      decreases s, 2
    {
      ghost var o0 := out;
      ok := VisitExpr(s.receiver);
      if !ok { return; }
      ghost var o1 := out;
      ok := VisitEnclosed(" = ", s.rhs, ";");
      Append(o0, o1, out, GenExpr(rv, s.receiver), Enclosed(rv, " = ", s.rhs, ";"));
    }

    /** `visit(Ast.Statement.While)`. */
    method VisitWhile(s: Stmt) returns (ok: bool)
      requires s.While?
      modifies this
      ensures out == old(out) + GenStmt(rv, s, old(indent)).text && ok == GenStmt(rv, s, old(indent)).ok
      ensures ok ==> indent == old(indent)
      decreases s, 2
    {
      ghost var o0 := out;
      ok := VisitEnclosed("while (", s.cond, ") {");
      if !ok { return; }
      ghost var o1 := out;
      ok := VisitBody(s.body);
      Append(o0, o1, out, Enclosed(rv, "while (", s.cond, ") {"), GenBody(rv, s.body, old(indent)));
    }

    /** The end of `visit(Ast.Statement.Declaration)` and of `visit(Ast.Global)`: ` = value`, then `;`. */
    method VisitInit(init: Option<Expr>) returns (ok: bool)
      modifies this
      ensures out == old(out) + GenInit(rv, init).text && ok == GenInit(rv, init).ok && indent == old(indent)
      decreases init, 4
    {
      if init.Some? {
        ok := VisitEnclosed(" = ", init.value, ";");
      } else {
        Write(";");
        ok := true;
      }
    }

    /** `visit(Ast.Statement.If)`: the else block only when there are else statements. */
    method VisitIf(s: Stmt) returns (ok: bool)
      requires s.If?
      modifies this
      ensures out == old(out) + GenStmt(rv, s, old(indent)).text && ok == GenStmt(rv, s, old(indent)).ok
      ensures ok ==> indent == old(indent)
      decreases s, 2
    {
      ghost var o0 := out;
      ghost var head := Enclosed(rv, "if (", s.cond, ") {");
      ok := VisitEnclosed("if (", s.cond, ") {");
      if !ok { return; }
      ghost var o1 := out;
      ok := VisitBody(s.thenBody);
      Append(o0, o1, out, head, GenBody(rv, s.thenBody, old(indent)));
      if !ok { return; }
      o1 := out;
      ok := VisitElse(s.elseBody);
      Append(o0, o1, out, Then(head, GenBody(rv, s.thenBody, old(indent))), GenElse(rv, s.elseBody, old(indent)));
    }

    /** The else part of `visit(Ast.Statement.If)`. */
    method VisitElse(ss: seq<Stmt>) returns (ok: bool)
      modifies this
      ensures out == old(out) + GenElse(rv, ss, old(indent)).text && ok == GenElse(rv, ss, old(indent)).ok
      ensures ok ==> indent == old(indent)
      decreases ss, 2
    {
      ok := true;
      if |ss| == 0 { return; }
      ghost var o0 := out;
      Write(" else {");
      ghost var o1 := out;
      ok := VisitBody(ss);
      Append(o0, o1, out, Done(" else {"), GenBody(rv, ss, old(indent)));
    }

    /**
     * `visit(Ast.Statement.Switch)`: the cases one level deeper, then the closing brace,
     * on a line of its own unless there are no cases.
     */
    method VisitSwitch(s: Stmt) returns (ok: bool)
      requires s.Switch?
      modifies this
      ensures out == old(out) + GenStmt(rv, s, old(indent)).text && ok == GenStmt(rv, s, old(indent)).ok
      ensures ok ==> indent == old(indent)
      decreases s, 2
    {
      ghost var o0 := out;
      ghost var head := Enclosed(rv, "switch (", s.cond, ") {");
      ok := VisitEnclosed("switch (", s.cond, ") {");
      if !ok { return; }
      ghost var o1 := out;
      indent := indent + 1;
      ok := VisitCases(s.cases);
      Append(o0, o1, out, head, GenCases(rv, s.cases, 0, old(indent) + 1));
      if !ok { return; }
      indent := indent - 1;
      o1 := out;
      WriteClosing(|s.cases| > 0);
      Append(o0, o1, out, Then(head, GenCases(rv, s.cases, 0, old(indent) + 1)), Done(Closing(|s.cases| > 0, old(indent))));
    }

    /** The case loop of `visit(Ast.Statement.Switch)`. */
    method VisitCases(cs: seq<Case>) returns (ok: bool)
      modifies this
      ensures out == old(out) + GenCases(rv, cs, 0, old(indent)).text && ok == GenCases(rv, cs, 0, old(indent)).ok
      ensures ok ==> indent == old(indent)
      decreases cs, 1
    {
      ghost var k := indent;
      ghost var acc := "";
      var i := 0;
      while i < |cs|
        invariant i <= |cs| && indent == k
        invariant out == old(out) + acc
        invariant GenCases(rv, cs, 0, k) == Then(Done(acc), GenCases(rv, cs, i, k))
      {
        ghost var o := out;
        ghost var step := GenCase(rv, cs[i], k);
        ok := VisitCase(cs[i]);
        CasesUnfold(rv, cs, i, k);
        Advance(old(out), acc, o, out, GenCases(rv, cs, 0, k), step, GenCases(rv, cs, i + 1, k));
        if !ok { return; }
        acc := acc + step.text;
        i := i + 1;
      }
      assert GenCases(rv, cs, i, k) == Done("");
      assert acc + "" == acc;
      ok := true;
    }

    /**
     * `visit(Ast.Statement.Case)`: the label on a new line, the body one level deeper,
     * and `break;` on a line of its own after a valued case only.
     */
    method VisitCase(c: Case) returns (ok: bool)
      modifies this
      ensures out == old(out) + GenCase(rv, c, old(indent)).text && ok == GenCase(rv, c, old(indent)).ok
      ensures ok ==> indent == old(indent)
      decreases c, 2
    {
      ghost var o0 := out;
      ghost var caseLabel := GenLabel(rv, c, indent);
      ok := VisitLabel(c);
      if !ok { return; }
      ghost var o1 := out;
      indent := indent + 1;
      ok := VisitStmts(c.body);
      Append(o0, o1, out, caseLabel, GenStmts(rv, c.body, 0, old(indent) + 1));
      if !ok { return; }
      o1 := out;
      if c.value.Some? {
        NewlineAt(indent);
        Write("break;");
        assert out == o1 + (Newline(old(indent) + 1) + "break;");
      } else {
        assert out == o1 + "";
      }
      indent := indent - 1;
      Append(o0, o1, out, Then(caseLabel, GenStmts(rv, c.body, 0, old(indent) + 1)),
        Done(if c.value.Some? then Newline(old(indent) + 1) + "break;" else ""));
    }

    /** The label of `visit(Ast.Statement.Case)`: `default:` or `case v:`, on a new line. */
    method VisitLabel(c: Case) returns (ok: bool)
      modifies this
      ensures out == old(out) + GenLabel(rv, c, old(indent)).text && ok == GenLabel(rv, c, old(indent)).ok
      ensures indent == old(indent)
      decreases c, 1
    {
      ghost var o0 := out;
      NewlineAt(indent);
      ghost var o1 := out;
      if c.value.None? {
        Write("default:");
        ok := true;
      } else {
        ok := VisitEnclosed("case ", c.value.value, ":");
      }
      Append(o0, o1, out, Done(Newline(old(indent))),
        if c.value.None? then Done("default:") else Enclosed(rv, "case ", c.value.value, ":"));
    }

    /**
     * The block pattern of a function, an `if`, an `else` and a `while`: the statements
     * one level deeper, then the closing brace.
     */
    method VisitBody(ss: seq<Stmt>) returns (ok: bool)
      modifies this
      ensures out == old(out) + GenBody(rv, ss, old(indent)).text && ok == GenBody(rv, ss, old(indent)).ok
      ensures ok ==> indent == old(indent)
      decreases ss, 1
    {
      ghost var o0 := out;
      indent := indent + 1;
      ok := VisitStmts(ss);
      if !ok { return; }
      indent := indent - 1;
      ghost var o1 := out;
      WriteClosing(|ss| > 0);
      Append(o0, o1, out, GenStmts(rv, ss, 0, old(indent) + 1), Done(Closing(|ss| > 0, old(indent))));
    }

    /** The closing brace of a block: on a new line at the current level unless the block is empty. */
    method WriteClosing(nonempty: bool)
      modifies this
      ensures out == old(out) + Closing(nonempty, old(indent)) && indent == old(indent)
    {
      if nonempty {
        NewlineAt(indent);
      }
      Write("}");
    }

    /** The statement loop of a block: each statement on a new line at the current level. */
    method VisitStmts(ss: seq<Stmt>) returns (ok: bool)
      modifies this
      ensures out == old(out) + GenStmts(rv, ss, 0, old(indent)).text && ok == GenStmts(rv, ss, 0, old(indent)).ok
      ensures ok ==> indent == old(indent)
      decreases ss, 0
    {
      ghost var k := indent;
      ghost var acc := "";
      var i := 0;
      while i < |ss|
        invariant i <= |ss| && indent == k
        invariant out == old(out) + acc
        invariant GenStmts(rv, ss, 0, k) == Then(Done(acc), GenStmts(rv, ss, i, k))
      {
        ghost var o := out;
        ghost var step := GenLine(rv, ss[i], k);
        ok := VisitLine(ss[i]);
        StmtsUnfold(rv, ss, i, k);
        Advance(old(out), acc, o, out, GenStmts(rv, ss, 0, k), step, GenStmts(rv, ss, i + 1, k));
        if !ok { return; }
        acc := acc + step.text;
        i := i + 1;
      }
      ok := true;
    }

    /** One statement of a block: `newline(indent)`, then the statement. */
    method VisitLine(s: Stmt) returns (ok: bool)
      modifies this
      ensures out == old(out) + GenLine(rv, s, old(indent)).text && ok == GenLine(rv, s, old(indent)).ok
      ensures ok ==> indent == old(indent)
      decreases s, 4
    {
      ghost var o0 := out;
      NewlineAt(indent);
      ghost var o1 := out;
      ok := VisitStmt(s);
      Append(o0, o1, out, Done(Newline(old(indent))), GenStmt(rv, s, old(indent)));
    }

    // ---------------------------------------------------------------- globals, functions, source

    /** `visit(Ast.Global)`: `final` (with no space after it), the type, `[]` for a list, the name and the initial value. */
    method VisitGlobal(g: Global) returns (ok: bool)
      modifies this
      ensures out == old(out) + GenGlobalAsWritten(rv, g).text && ok == GenGlobalAsWritten(rv, g).ok && indent == old(indent)
    {
      ghost var o0 := out;
      var isList := g.value.Some? && g.value.value.PlcList?;
      Write((if g.mutable then "" else "final") + rv.globalType(g) + (if isList then "[]" else "") + " " + g.name);
      ghost var o1 := out;
      ok := VisitInit(g.value);
      Append(o0, o1, out, Done((if g.mutable then "" else "final") + rv.globalType(g) + (if isList then "[]" else "") + " " + g.name), GenInit(rv, g.value));
    }

    /**
     * The parameter list of `visit(Ast.Function)`: each parameter's JVM type name, a
     * space and its name, with `, ` after each but the last. A parameter without a type
     * name makes `getParameterTypeNames().get(i)` throw.
     */
    method VisitParams(f: Function) returns (ok: bool)
      modifies this
      ensures out == old(out) + GenParams(rv, f, 0).text && ok == GenParams(rv, f, 0).ok && indent == old(indent)
    {
      ghost var acc := "";
      var i := 0;
      while i < |f.params|
        invariant i <= |f.params| && indent == old(indent)
        invariant out == old(out) + acc
        invariant GenParams(rv, f, 0) == Then(Done(acc), GenParams(rv, f, i))
      {
        if i >= |f.paramTypes| {
          return false;
        }
        var sep := if i < |f.params| - 1 then ", " else "";
        var text := rv.typeName(f.paramTypes[i]) + " " + f.params[i] + sep;
        ghost var o := out;
        Write(text);
        Advance(old(out), acc, o, out, GenParams(rv, f, 0), Done(text), GenParams(rv, f, i + 1));
        acc := acc + text;
        i := i + 1;
      }
      ok := true;
    }

    /** `visit(Ast.Function)`: return type, name and parameters, then the body. */
    method VisitFunction(f: Function) returns (ok: bool)
      modifies this
      ensures out == old(out) + GenFunction(rv, f, old(indent)).text && ok == GenFunction(rv, f, old(indent)).ok
      ensures ok ==> indent == old(indent)
    {
      ghost var o0 := out;
      ghost var head := Done(rv.returnType(f) + " " + f.name + "(");
      Write(rv.returnType(f) + " " + f.name + "(");
      ghost var o1 := out;
      ok := VisitParams(f);
      Append(o0, o1, out, head, GenParams(rv, f, 0));
      if !ok { return; }
      head := Then(head, GenParams(rv, f, 0));
      o1 := out;
      Write(") {");
      Append(o0, o1, out, head, Done(") {"));
      head := Then(head, Done(") {"));
      o1 := out;
      ok := VisitBody(f.body);
      Append(o0, o1, out, head, GenBody(rv, f.body, old(indent)));
    }

    /**
     * `visit(Ast.Source)`: the class header; the globals, after a blank line, one level
     * deeper; the fixed `main(String[])`; the functions; the closing brace. The level
     * is left one deeper than on entry.
     */
    method VisitSource(src: Source) returns (ok: bool)
      modifies this
      ensures out == old(out) + GenSource(rv, src, old(indent)).text && ok == GenSource(rv, src, old(indent)).ok
      ensures ok ==> indent == old(indent) + 1
    {
      ghost var o0 := out;
      Write("public class Main {");
      indent := indent + 1;
      ghost var o1 := out;
      ok := VisitGlobals(src.globals);
      Append(o0, o1, out, Done("public class Main {"), GenGlobalSection(rv, src.globals, old(indent) + 1));
      if !ok { return; }
      o1 := out;
      ok := VisitClassRest(src.functions);
      Append(o0, o1, out, Then(Done("public class Main {"), GenGlobalSection(rv, src.globals, old(indent) + 1)),
        GenClassRest(rv, src.functions, old(indent) + 1));
    }

    /** The rest of `visit(Ast.Source)` after the globals. */
    method VisitClassRest(fs: seq<Function>) returns (ok: bool)
      modifies this
      ensures out == old(out) + GenClassRest(rv, fs, old(indent)).text && ok == GenClassRest(rv, fs, old(indent)).ok
      ensures ok ==> indent == old(indent)
    {
      ghost var o0 := out;
      WriteMain();
      ghost var o1 := out;
      ok := VisitFunctions(fs);
      if !ok {
        Append(o0, o1, out, Done(MainMethod(old(indent))), GenFunctions(rv, fs, 0, old(indent)));
        return;
      }
      ghost var o2 := out;
      WriteClassEnd();
      Append(o1, o2, out, GenFunctions(rv, fs, 0, old(indent)), Done(Newline(0) + Newline(0) + "}"));
      Append(o0, o1, out, Done(MainMethod(old(indent))), Then(GenFunctions(rv, fs, 0, old(indent)), Done(Newline(0) + Newline(0) + "}")));
    }

    /** The end of `visit(Ast.Source)`: two line breaks and the class's closing brace. */
    method WriteClassEnd()
      modifies this
      ensures out == old(out) + (Newline(0) + Newline(0) + "}") && indent == old(indent)
    {
      ghost var o0 := out;
      NewlineAt(0);
      ghost var o1 := out;
      NewlineAt(0);
      Snoc(o0, Newline(0), o1, Newline(0), out);
      o1 := out;
      Write("}");
      Snoc(o0, Newline(0) + Newline(0), o1, "}", out);
    }

    /** The fixed `main(String[])` of `visit(Ast.Source)`, which calls the source's `main()`. */
    method WriteMain()
      modifies this
      ensures out == old(out) + MainMethod(old(indent)) && indent == old(indent)
    {
      var k := indent;
      ghost var o0 := out;
      NewlineAt(0);
      ghost var o1 := out;
      NewlineAt(k);
      Snoc(o0, Newline(0), o1, Newline(k), out);
      ghost var x := Newline(0) + Newline(k);
      o1 := out;
      Write("public static void main(String[] args) {");
      Snoc(o0, x, o1, "public static void main(String[] args) {", out);
      x := x + "public static void main(String[] args) {";
      indent := indent + 1;
      o1 := out;
      NewlineAt(indent);
      Snoc(o0, x, o1, Newline(k + 1), out);
      x := x + Newline(k + 1);
      o1 := out;
      Write("System.exit(new Main().main());");
      Snoc(o0, x, o1, "System.exit(new Main().main());", out);
      x := x + "System.exit(new Main().main());";
      indent := indent - 1;
      o1 := out;
      NewlineAt(indent);
      Snoc(o0, x, o1, Newline(k), out);
      x := x + Newline(k);
      o1 := out;
      Write("}");
      Snoc(o0, x, o1, "}", out);
      x := x + "}";
      o1 := out;
      NewlineAt(0);
      Snoc(o0, x, o1, Newline(0), out);
    }

    /** The globals of `visit(Ast.Source)`: none at all, or a blank line, then each global on a new line. */
    method VisitGlobals(gs: seq<Global>) returns (ok: bool)
      modifies this
      ensures out == old(out) + GenGlobalSection(rv, gs, old(indent)).text && ok == GenGlobalSection(rv, gs, old(indent)).ok
      ensures indent == old(indent)
    {
      ok := true;
      if |gs| == 0 { return; }
      ghost var o0 := out;
      NewlineAt(0);
      ghost var o1 := out;
      ok := VisitGlobalLines(gs);
      Append(o0, o1, out, Done(Newline(0)), GenGlobals(rv, gs, 0, old(indent)));
    }

    /** The global loop of `visit(Ast.Source)`: each global on a new line. */
    method VisitGlobalLines(gs: seq<Global>) returns (ok: bool)
      modifies this
      ensures out == old(out) + GenGlobals(rv, gs, 0, old(indent)).text && ok == GenGlobals(rv, gs, 0, old(indent)).ok
      ensures indent == old(indent)
    {
      ghost var k := indent;
      ghost var acc := "";
      var i := 0;
      while i < |gs|
        invariant i <= |gs| && indent == k
        invariant out == old(out) + acc
        invariant GenGlobals(rv, gs, 0, k) == Then(Done(acc), GenGlobals(rv, gs, i, k))
      {
        ghost var o := out;
        ghost var step := Then(Done(Newline(k)), GenGlobalAsWritten(rv, gs[i]));
        ok := VisitGlobalLine(gs[i]);
        GlobalsUnfold(rv, gs, i, k);
        Advance(old(out), acc, o, out, GenGlobals(rv, gs, 0, k), step, GenGlobals(rv, gs, i + 1, k));
        if !ok { return; }
        acc := acc + step.text;
        i := i + 1;
      }
      assert GenGlobals(rv, gs, i, k) == Done("");
      assert acc + "" == acc;
      ok := true;
    }

    /** One global of `visit(Ast.Source)`: `newline(indent)`, then the global. */
    method VisitGlobalLine(g: Global) returns (ok: bool)
      modifies this
      ensures var line := Then(Done(Newline(old(indent))), GenGlobalAsWritten(rv, g));
        out == old(out) + line.text && ok == line.ok && indent == old(indent)
    {
      ghost var o0 := out;
      NewlineAt(indent);
      ghost var o1 := out;
      ok := VisitGlobal(g);
      Append(o0, o1, out, Done(Newline(indent)), GenGlobalAsWritten(rv, g));
    }

    /** The function loop of `visit(Ast.Source)`: each function on a new line. */
    method VisitFunctions(fs: seq<Function>) returns (ok: bool)
      modifies this
      ensures out == old(out) + GenFunctions(rv, fs, 0, old(indent)).text && ok == GenFunctions(rv, fs, 0, old(indent)).ok
      ensures ok ==> indent == old(indent)
    {
      ghost var k := indent;
      ghost var acc := "";
      var i := 0;
      while i < |fs|
        invariant i <= |fs| && indent == k
        invariant out == old(out) + acc
        invariant GenFunctions(rv, fs, 0, k) == Then(Done(acc), GenFunctions(rv, fs, i, k))
      {
        ghost var o := out;
        ghost var step := Then(Done(Newline(k)), GenFunction(rv, fs[i], k));
        ok := VisitFunctionLine(fs[i]);
        FunctionsUnfold(rv, fs, i, k);
        Advance(old(out), acc, o, out, GenFunctions(rv, fs, 0, k), step, GenFunctions(rv, fs, i + 1, k));
        if !ok { return; }
        acc := acc + step.text;
        i := i + 1;
      }
      assert GenFunctions(rv, fs, i, k) == Done("");
      assert acc + "" == acc;
      ok := true;
    }

    /** One function of `visit(Ast.Source)`: `newline(indent)`, then the function. */
    method VisitFunctionLine(f: Function) returns (ok: bool)
      modifies this
      ensures var line := Then(Done(Newline(old(indent))), GenFunction(rv, f, old(indent)));
        out == old(out) + line.text && ok == line.ok
      ensures ok ==> indent == old(indent)
    {
      ghost var o0 := out;
      NewlineAt(indent);
      ghost var o1 := out;
      ok := VisitFunction(f);
      Append(o0, o1, out, Done(Newline(old(indent))), GenFunction(rv, f, old(indent)));
    }
  }
}
