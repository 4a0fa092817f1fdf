/**
 * The interpreter as the object it is (Interpreter.java): the current scope is a field
 * that statements and calls reassign, variable cells and lists are updated in place,
 * and statement lists, argument lists, loops and `^` are iterated. The scopes and lists
 * the interpreter reaches are kept as fields beside `scope`, and `print` appends to `out`.
 *
 * Every `visit` method is proved to agree with the reference semantics of the module
 * `Semantics`: on success it returns the value (or outcome) the reference function
 * computes and leaves the object in the state it computes; on failure it raises the
 * same error.
 */
module Interpreting {
  import opened Common
  import opened Ast
  import opened Values
  import opened Semantics

  predicate EvalAgrees(r: Result<Value, RuntimeError>, st: State, spec: Result<Ev, RuntimeError>)
  {
    if spec.Ok? then r == Ok(spec.value.value) && st == spec.value.st else r == Err(spec.error)
  }

  predicate ArgsAgree(r: Result<seq<Value>, RuntimeError>, st: State, spec: Result<Evs, RuntimeError>)
  {
    if spec.Ok? then r == Ok(spec.value.values) && st == spec.value.st else r == Err(spec.error)
  }

  predicate ExecAgrees(r: Result<Outcome, RuntimeError>, st: State, spec: Result<Ex, RuntimeError>)
  {
    if spec.Ok? then r == Ok(spec.value.outcome) && st == spec.value.st else r == Err(spec.error)
  }

  predicate DefAgrees(r: Result<Value, RuntimeError>, st: State, spec: Result<State, RuntimeError>)
  {
    if spec.Ok? then r == Ok(Nil) && st == spec.value else r == Err(spec.error)
  }

  /** The values `vs` followed by those of a successful evaluation of the remaining arguments. */
  function Prepend(vs: seq<Value>, r: Result<Evs, RuntimeError>): Result<Evs, RuntimeError>
  {
    if r.Ok? then Ok(Evs(vs + r.value.values, r.value.st)) else r
  }

  lemma PrependNothing(r: Result<Evs, RuntimeError>)
    ensures Prepend([], r) == r
  {
    if r.Ok? {
      assert [] + r.value.values == r.value.values;
    }
  }

  lemma PrependTwice(vs: seq<Value>, ws: seq<Value>, r: Result<Evs, RuntimeError>)
    ensures Prepend(vs, Prepend(ws, r)) == Prepend(vs + ws, r)
  {
    if r.Ok? {
      assert vs + (ws + r.value.values) == (vs + ws) + r.value.values;
    }
  }

  /** The `^` loop on integers: `exp` multiplications by the base; a negative exponent leaves one. */
  method IntPower(base: int, exp: int) returns (power: int)
    ensures power == IntPow(base, exp)
    ensures exp >= 0 ==> power == Pow(base, exp)
  {
    power := 1;
    var i := 0;
    while i < exp
      invariant 0 <= i && (i <= exp || i == 0)
      invariant power == Pow(base, i)
      decreases exp - i
    {
      power := power * base;
      i := i + 1;
    }
    if exp < 0 {
      power := TruncDiv(1, power);
      assert Abs(1 - power) < 1;
    }
  }

  /** The `^` loop on decimals: exact products, a negative exponent leaves `ONE.divide(ONE)`. */
  method DecPower(base: BigDecimal, exp: int) returns (result: BigDecimal)
    ensures result == DecPow(base, exp)
    ensures result.scale == (if exp >= 0 then exp * base.scale else 0)
  {
    result := BigDecimal(1, 0);
    var i := 0;
    while i < exp
      invariant 0 <= i && (i <= exp || i == 0)
      invariant result == DecPowNat(base, i) && result.scale == i * base.scale
      decreases exp - i
    {
      result := DecMul(result, base);
      i := i + 1;
    }
    if exp < 0 {
      assert Pow10(0) == 1;
      result := DecDiv(BigDecimal(1, 0), result);
      assert 2 * Abs(1 - result.unscaled) <= 1;
    }
  }

  /** `^` once both operands are values, with the loops above. */
  method PowerOf(l: Value, r: Value) returns (v: Result<Value, RuntimeError>)
    ensures v == Power(l, r)
  {
    if l.Int? {
      if !r.Int? { return Err(WrongType(IntegerClass, ClassOf(r))); }
      var p := IntPower(l.i, r.i);
      v := Ok(Int(p));
    } else if l.Dec? {
      if !r.Int? { return Err(WrongType(IntegerClass, ClassOf(r))); }
      var p := DecPower(l.d, r.i);
      v := Ok(Dec(p));
    } else {
      v := Err(RuntimeException("Invalid division objects!"));
    }
  }

  class Interpreter {
    /** How `toString` renders `NIL`, decimals and lists. */
    const sh: Show
    /** Every scope created so far; `scope` and closures refer to them by index. */
    var frames: seq<Frame>
    /** The current scope. */
    var scope: Option<nat>
    /** Every list created so far; list values refer to them by index. */
    var lists: seq<seq<Value>>
    /** What `print` has written, one entry per call. */
    var out: seq<string>

    function Snapshot(): State
      reads this
    {
      State(frames, scope, lists, out)
    }

    /**
     * `new Interpreter(parent)`: a fresh scope holding the `print` builtin, whose parent
     * is the current scope of `parent` (`None` for `null`).
     */
    constructor (sh: Show, parent: State)
      requires WF(parent)
      ensures Snapshot() == Initial(parent) && this.sh == sh
    {
      this.sh := sh;
      frames := parent.frames + [Frame(parent.scope, map[], map[("print", 1) := Print])];
      scope := Some(|parent.frames|);
      lists := parent.lists;
      out := parent.out;
    }

    /** `scope = new Scope(parent)`. */
    method PushScope(parent: Option<nat>)
      requires WF(Snapshot()) && (parent.Some? ==> parent.value < |frames|)
      modifies this
      ensures Snapshot() == Enter(old(Snapshot()), parent)
    {
      frames := frames + [Frame(parent, map[], map[])];
      scope := Some(|frames| - 1);
    }

    /** `scope = scope.getParent()`. */
    method PopScope() returns (r: Result<Value, RuntimeError>)
      requires WF(Snapshot())
      modifies this
      ensures DefAgrees(r, Snapshot(), ParentScope(old(Snapshot())))
    {
      if scope.None? { return Err(NullPointer); }
      scope := frames[scope.value].parent;
      r := Ok(Nil);
    }

    // ------------------------------------------------------------ expressions

    method VisitExpr(e: Expr, fuel: nat) returns (r: Result<Value, RuntimeError>)
      requires WF(Snapshot())
      modifies this
      ensures EvalAgrees(r, Snapshot(), Eval(sh, e, old(Snapshot()), fuel))
      decreases fuel, ExprSize(e), 2, 0
    {
      match e
      case Literal(lit) =>
        r := Ok(LiteralValue(lit));
      case Group(inner) =>
        r := VisitExpr(inner, fuel);
      case Binary(_, _, _) =>
        r := VisitBinary(e, fuel);
      case Access(offset, name) =>
        if offset.Some? {
          r := VisitIndex(e, fuel);
        } else {
          var f :- LookupVariable(Snapshot(), name);
          r := Ok(CellOf(Snapshot(), f, name).value);
        }
      case Call(_, _) =>
        r := VisitCall(e, fuel);
      case PlcList(values) =>
        var vs := VisitArguments(values, fuel);
        if vs.Err? { return Err(vs.error); }
        var ev := Allocate(Snapshot(), vs.value);
        lists := lists + [vs.value];
        r := Ok(ev.value);
    }

    /** The argument loop of a call, or the element loop of a list literal. */
    method VisitArguments(es: seq<Expr>, fuel: nat) returns (r: Result<seq<Value>, RuntimeError>)
      requires WF(Snapshot())
      modifies this
      ensures ArgsAgree(r, Snapshot(), EvalArgs(sh, es, 0, old(Snapshot()), fuel))
      decreases fuel, ExprsSize(es), 1, 0
    {
      var vals: seq<Value> := [];
      var i := 0;
      PrependNothing(EvalArgs(sh, es, 0, Snapshot(), fuel));
      while i < |es|
        invariant i <= |es| && WF(Snapshot())
        invariant EvalArgs(sh, es, 0, old(Snapshot()), fuel) == Prepend(vals, EvalArgs(sh, es, i, Snapshot(), fuel))
        decreases |es| - i
      {
        ExprsSizeAt(es, i);
        ghost var before := Snapshot();
        var v := VisitExpr(es[i], fuel);
        if v.Err? { return Err(v.error); }
        ghost var rest := EvalArgs(sh, es, i + 1, Snapshot(), fuel);
        assert EvalArgs(sh, es, i, before, fuel) == Prepend([v.value], rest);
        PrependTwice(vals, [v.value], rest);
        vals := vals + [v.value];
        i := i + 1;
      }
      assert vals + [] == vals;
      r := Ok(vals);
    }

    /** `visit(Ast.Expression.Binary)`: the extra evaluation of the left operand, then the operator. */
    method VisitBinary(e: Expr, fuel: nat) returns (r: Result<Value, RuntimeError>)
      requires WF(Snapshot()) && e.Binary?
      modifies this
      ensures EvalAgrees(r, Snapshot(), EvalBinary(sh, e, old(Snapshot()), fuel))
      decreases fuel, ExprSize(e), 1, 0
    {
      var first := VisitExpr(e.left, fuel);
      if first.Err? { return first; }
      if e.op == "&&" || e.op == "||" {
        r := VisitLogical(e, fuel);
      } else if IsComparison(e.op) {
        r := VisitComparison(e, fuel);
      } else if IsArithmetic(e.op) {
        r := VisitArithmetic(e, fuel);
      } else {
        var right := VisitExpr(e.right, fuel);
        if right.Err? { return right; }
        r := Ok(Nil);
      }
    }

    method VisitLogical(e: Expr, fuel: nat) returns (r: Result<Value, RuntimeError>)
      requires WF(Snapshot()) && e.Binary? && (e.op == "&&" || e.op == "||")
      modifies this
      ensures EvalAgrees(r, Snapshot(), EvalLogical(sh, e, old(Snapshot()), fuel))
      decreases fuel, ExprSize(e), 0, 0
    {
      var l := VisitExpr(e.left, fuel);
      if l.Err? { return l; }
      var lb :- RequireBool(l.value);
      if e.op == "&&" && !lb { return Ok(Bool(false)); }
      if e.op == "||" && lb { return Ok(Bool(true)); }
      var right := VisitExpr(e.right, fuel);
      if right.Err? { return right; }
      var rb :- RequireBool(right.value);
      r := Ok(Bool(rb));
    }

    method VisitComparison(e: Expr, fuel: nat) returns (r: Result<Value, RuntimeError>)
      requires WF(Snapshot()) && e.Binary? && IsComparison(e.op)
      modifies this
      ensures EvalAgrees(r, Snapshot(), EvalComparison(sh, e, old(Snapshot()), fuel))
      decreases fuel, ExprSize(e), 0, 0
    {
      var l := VisitExpr(e.left, fuel);
      if l.Err? { return l; }
      var lc :- RequireComparable(l.value);
      var right := VisitExpr(e.right, fuel);
      if right.Err? { return right; }
      var rc :- RequireComparable(right.value);
      var c :- CompareValues(lc, rc);
      r := Ok(Bool(Holds(e.op, c)));
    }

    method VisitArithmetic(e: Expr, fuel: nat) returns (r: Result<Value, RuntimeError>)
      requires WF(Snapshot()) && e.Binary? && IsArithmetic(e.op)
      modifies this
      ensures EvalAgrees(r, Snapshot(), EvalArithmetic(sh, e, old(Snapshot()), fuel))
      decreases fuel, ExprSize(e), 0, 0
    {
      var l := VisitExpr(e.left, fuel);
      if l.Err? { return l; }
      ghost var mid := Snapshot();
      var right := VisitExpr(e.right, fuel);
      if right.Err? { return right; }
      assert Below(l.value, |lists|);
      if e.op == "^" {
        r := PowerOf(l.value, right.value);
      } else {
        r := Arith(sh, e.op, l.value, right.value, lists);
      }
    }

    /** `visit(Ast.Expression.Access)` with an offset. */
    method VisitIndex(e: Expr, fuel: nat) returns (r: Result<Value, RuntimeError>)
      requires WF(Snapshot()) && e.Access? && e.offset.Some?
      modifies this
      ensures EvalAgrees(r, Snapshot(), EvalIndex(sh, e, old(Snapshot()), fuel))
      decreases fuel, ExprSize(e), 1, 0
    {
      var o := VisitExpr(e.offset.value, fuel);
      if o.Err? { return o; }
      var i :- RequireInt(o.value);
      var f :- LookupVariable(Snapshot(), e.name);
      var a :- RequireList(CellOf(Snapshot(), f, e.name).value);
      if i < 0 || i > |lists[a]| - 1 { return Err(RuntimeException("Offset out of range!")); }
      r := Ok(lists[a][i]);
    }

    /** `visit(Ast.Expression.Function)`: the arguments left to right, then the call. */
    method VisitCall(e: Expr, fuel: nat) returns (r: Result<Value, RuntimeError>)
      requires WF(Snapshot()) && e.Call?
      modifies this
      ensures EvalAgrees(r, Snapshot(), Eval(sh, e, old(Snapshot()), fuel))
      decreases fuel, ExprSize(e), 1, 0
    {
      var vals := VisitArguments(e.args, fuel);
      if vals.Err? { return Err(vals.error); }
      var f :- LookupFunction(Snapshot(), e.fname, |e.args|);
      r := InvokeFunction(f, vals.value, fuel);
    }

    /** `Environment.Function.invoke`. */
    method InvokeFunction(f: Callable, vals: seq<Value>, fuel: nat) returns (r: Result<Value, RuntimeError>)
      requires WF(Snapshot()) && AllBelow(vals, |lists|) && CallableIn(f, |frames|)
      modifies this
      ensures EvalAgrees(r, Snapshot(), Invoke(sh, f, vals, old(Snapshot()), fuel))
      decreases fuel, 0, 1, 0
    {
      match f
      case Print =>
        if |vals| == 0 { return Err(IndexOutOfBounds(0)); }
        assert vals[0] in vals;
        out := out + [Text(sh, vals[0], lists)];
        r := Ok(Nil);
      case Closure(_, _, _) =>
        if fuel == 0 { return Err(OutOfFuel); }
        r := CallClosure(f, vals, fuel);
    }

    /**
     * The lambda `visit(Ast.Function)` registers: a new scope under the definition
     * scope, the parameter loop, the statement loop, and the caller's scope restored.
     */
    method CallClosure(f: Callable, vals: seq<Value>, fuel: nat) returns (r: Result<Value, RuntimeError>)
      requires WF(Snapshot()) && AllBelow(vals, |lists|) && f.Closure? && CallableIn(f, |frames|) && fuel > 0
      modifies this
      ensures EvalAgrees(r, Snapshot(), Apply(sh, f, vals, old(Snapshot()), fuel))
      decreases fuel, 0, 0, 0
    {
      var caller := scope;
      PushScope(f.scope);
      var bound := BindParameters(f.params, vals);
      if bound.Err? { return bound; }
      var ex := VisitBlock(f.body, fuel - 1);
      if ex.Err? { return Err(ex.error); }
      scope := caller;
      r := Ok(if ex.value.Returned? then ex.value.value else Nil);
    }

    /** The parameter loop: parameter `i` becomes a mutable variable holding argument `i`. */
    method BindParameters(params: seq<string>, vals: seq<Value>) returns (r: Result<Value, RuntimeError>)
      requires WF(Snapshot()) && AllBelow(vals, |lists|)
      modifies this
      ensures DefAgrees(r, Snapshot(), BindParams(params, vals, 0, old(Snapshot())))
    {
      var i := 0;
      ghost var goal := BindParams(params, vals, 0, Snapshot());
      while i < |params|
        invariant i <= |params| && WF(Snapshot()) && AllBelow(vals, |lists|)
        invariant goal == BindParams(params, vals, i, Snapshot())
        decreases |params| - i
      {
        if i >= |vals| { return Err(IndexOutOfBounds(i)); }
        var next :- DefineVariable(Snapshot(), params[i], true, vals[i]);
        frames := next.frames;
        i := i + 1;
      }
      r := Ok(Nil);
    }

    // ------------------------------------------------------------ statements

    /** A statement loop, stopping at the first `RETURN`. */
    method VisitBlock(ss: seq<Stmt>, fuel: nat) returns (r: Result<Outcome, RuntimeError>)
      requires WF(Snapshot())
      modifies this
      ensures ExecAgrees(r, Snapshot(), ExecBlock(sh, ss, 0, old(Snapshot()), fuel))
      decreases fuel, StmtsSize(ss), 0, 0
    {
      var i := 0;
      ghost var goal := ExecBlock(sh, ss, 0, Snapshot(), fuel);
      while i < |ss|
        invariant i <= |ss| && WF(Snapshot())
        invariant goal == ExecBlock(sh, ss, i, Snapshot(), fuel)
        decreases |ss| - i
      {
        StmtsSizeAt(ss, i);
        var x := VisitStmt(ss[i], fuel);
        if x.Err? || x.value.Returned? { return x; }
        i := i + 1;
      }
      r := Ok(Normal);
    }

    method VisitStmt(s: Stmt, fuel: nat) returns (r: Result<Outcome, RuntimeError>)
      requires WF(Snapshot())
      modifies this
      ensures ExecAgrees(r, Snapshot(), ExecStmt(sh, s, old(Snapshot()), fuel))
      decreases fuel, StmtSize(s), 2, 0
    {
      match s
      case ExprStmt(e) =>
        var v := VisitExpr(e, fuel);
        if v.Err? { return Err(v.error); }
        r := Ok(Normal);
      case Declaration(name, _, init) =>
        var v: Result<Value, RuntimeError> := Ok(Nil);
        if init.Some? {
          v := VisitExpr(init.value, fuel);
          if v.Err? { return Err(v.error); }
        }
        var next :- DefineVariable(Snapshot(), name, true, v.value);
        frames := next.frames;
        r := Ok(Normal);
      case Assignment(_, _) =>
        r := VisitAssignment(s, fuel);
      case If(_, _, _) =>
        r := VisitIf(s, fuel);
      case Switch(_, _) =>
        PushScope(scope);
        r := VisitSwitch(s, fuel);
      case While(_, _) =>
        r := VisitWhile(s, fuel);
      case Return(e) =>
        var v := VisitExpr(e, fuel);
        if v.Err? { return Err(v.error); }
        r := Ok(Returned(v.value));
    }

    /** `visit(Ast.Statement.Assignment)`: a variable cell or a list element is updated in place. */
    method VisitAssignment(s: Stmt, fuel: nat) returns (r: Result<Outcome, RuntimeError>)
      requires WF(Snapshot()) && s.Assignment?
      modifies this
      ensures ExecAgrees(r, Snapshot(), ExecAssignment(sh, s, old(Snapshot()), fuel))
      decreases fuel, StmtSize(s), 1, 0
    {
      if !s.receiver.Access? { return Err(RuntimeException("Receiver is not of type Ast.Expression.Access!")); }
      var name := s.receiver.name;
      var f :- LookupVariable(Snapshot(), name);
      if !CellOf(Snapshot(), f, name).mutable { return Err(RuntimeException("Cannot modify immutable environment variable!")); }
      if s.receiver.offset.Some? {
        r := AssignElement(s, f, fuel);
      } else {
        var v := VisitExpr(s.rhs, fuel);
        if v.Err? { return Err(v.error); }
        frames := SetVariable(Snapshot(), f, name, v.value).frames;
        r := Ok(Normal);
      }
    }

    /** `vars.set(offset, value)` after the bounds check. */
    method AssignElement(s: Stmt, f: nat, fuel: nat) returns (r: Result<Outcome, RuntimeError>)
      requires WF(Snapshot()) && s.Assignment? && s.receiver.Access? && s.receiver.offset.Some?
      requires f < |frames| && s.receiver.name in frames[f].variables
      modifies this
      ensures ExecAgrees(r, Snapshot(), AssignIndex(sh, s, f, old(Snapshot()), fuel))
      decreases fuel, StmtSize(s), 0, 0
    {
      var name := s.receiver.name;
      var o := VisitExpr(s.receiver.offset.value, fuel);
      if o.Err? { return Err(o.error); }
      var i :- RequireInt(o.value);
      var a :- RequireList(CellOf(Snapshot(), f, name).value);
      if i < 0 || i > |lists[a]| - 1 { return Err(RuntimeException("Offset out of range!")); }
      var v := VisitExpr(s.rhs, fuel);
      if v.Err? { return Err(v.error); }
      lists := lists[a := lists[a][i := v.value]];
      r := Ok(Normal);
    }

    /** `visit(Ast.Statement.If)`. */
    method VisitIf(s: Stmt, fuel: nat) returns (r: Result<Outcome, RuntimeError>)
      requires WF(Snapshot()) && s.If?
      modifies this
      ensures ExecAgrees(r, Snapshot(), ExecIf(sh, s, old(Snapshot()), fuel))
      decreases fuel, StmtSize(s), 1, 0
    {
      PushScope(scope);
      var c := VisitExpr(s.cond, fuel);
      if c.Err? { return Err(c.error); }
      var b :- RequireBool(c.value);
      var x := VisitBlock(if b then s.thenBody else s.elseBody, fuel);
      if x.Err? || x.value.Returned? { return x; }
      var popped := PopScope();
      if popped.Err? { return Err(popped.error); }
      r := Ok(Normal);
    }

    /** The case loop of `visit(Ast.Statement.Switch)`, in the scope pushed for the switch. */
    method VisitSwitch(s: Stmt, fuel: nat) returns (r: Result<Outcome, RuntimeError>)
      requires WF(Snapshot()) && s.Switch?
      modifies this
      ensures ExecAgrees(r, Snapshot(), SwitchScan(sh, s, 0, old(Snapshot()), fuel))
      decreases fuel, StmtSize(s), 1, 0
    {
      var i := 0;
      ghost var goal := SwitchScan(sh, s, 0, Snapshot(), fuel);
      while i < |s.cases|
        invariant i <= |s.cases| && WF(Snapshot())
        invariant goal == SwitchScan(sh, s, i, Snapshot(), fuel)
        decreases |s.cases| - i
      {
        if s.cases[i].value.Some? {
          CasesSizeAt(s.cases, i);
          var c := VisitExpr(s.cond, fuel);
          if c.Err? { return Err(c.error); }
          var cv :- RequireComparable(c.value);
          var k := VisitExpr(s.cases[i].value.value, fuel);
          if k.Err? { return Err(k.error); }
          var kv :- RequireComparable(k.value);
          if cv == kv {
            r := VisitBlock(s.cases[i].body, fuel);
            return;
          }
        }
        i := i + 1;
      }
      if |s.cases| == 0 { return Err(IndexOutOfBounds(-1)); }
      CasesSizeAt(s.cases, |s.cases| - 1);
      r := VisitBlock(s.cases[|s.cases| - 1].body, fuel);
    }

    /** `visit(Ast.Statement.While)`: one unit of fuel per repeated iteration. */
    method VisitWhile(s: Stmt, fuel: nat) returns (r: Result<Outcome, RuntimeError>)
      requires WF(Snapshot()) && s.While?
      modifies this
      ensures ExecAgrees(r, Snapshot(), ExecWhile(sh, s, old(Snapshot()), fuel))
      decreases fuel, StmtSize(s), 1, 0
    {
      var left: nat := fuel;
      ghost var goal := ExecWhile(sh, s, Snapshot(), fuel);
      while true
        invariant left <= fuel && WF(Snapshot())
        invariant goal == ExecWhile(sh, s, Snapshot(), left)
        decreases left
      {
        var again;
        r, again := WhileIteration(s, left);
        if !again { return; }
        left := left - 1;
      }
    }

    /**
     * One test of the condition and, if it holds, one run of the body in a new scope;
     * `again` says the loop goes on, with one unit of fuel less.
     */
    method WhileIteration(s: Stmt, fuel: nat) returns (r: Result<Outcome, RuntimeError>, again: bool)
      requires WF(Snapshot()) && s.While?
      modifies this
      ensures again ==> fuel > 0 && WF(Snapshot()) && ExecWhile(sh, s, old(Snapshot()), fuel) == ExecWhile(sh, s, Snapshot(), fuel - 1)
      ensures !again ==> ExecAgrees(r, Snapshot(), ExecWhile(sh, s, old(Snapshot()), fuel))
      decreases fuel, StmtSize(s), 0, 0
    {
      again := false;
      var c := VisitExpr(s.cond, fuel);
      if c.Err? { return Err(c.error), false; }
      var b :- RequireBool(c.value);
      if !b {
        var popped := PopScope();
        if popped.Err? { return Err(popped.error), false; }
        return Ok(Normal), false;
      }
      PushScope(scope);
      var x := VisitBlock(s.body, fuel);
      if x.Err? || x.value.Returned? { return x, false; }
      if fuel == 0 { return Err(OutOfFuel), false; }
      r, again := Ok(Normal), true;
    }

    // ------------------------------------------------------------ globals, functions, source

    method VisitGlobal(g: Global, fuel: nat) returns (r: Result<Value, RuntimeError>)
      requires WF(Snapshot())
      modifies this
      ensures DefAgrees(r, Snapshot(), DefineGlobal(sh, g, old(Snapshot()), fuel))
    {
      if !g.mutable && g.value.None? { return Err(RuntimeException("Value must be declared for immutable type")); }
      var v: Result<Value, RuntimeError> := Ok(Nil);
      if g.value.Some? {
        v := VisitExpr(g.value.value, fuel);
        if v.Err? { return v; }
      }
      var next :- DefineVariable(Snapshot(), g.name, g.mutable, v.value);
      frames := next.frames;
      r := Ok(Nil);
    }

    method VisitFunction(f: Function) returns (r: Result<Value, RuntimeError>)
      requires WF(Snapshot())
      modifies this
      ensures DefAgrees(r, Snapshot(), DefineFunctionDecl(f, old(Snapshot())))
    {
      var next :- DefineFunction(Snapshot(), f.name, |f.params|, Closure(f.params, f.body, scope));
      frames := next.frames;
      r := Ok(Nil);
    }

    /** The global loop of `visit(Ast.Source)`: each global in order, stopping at the first error. */
    method VisitGlobals(globals: seq<Global>, fuel: nat) returns (r: Result<Value, RuntimeError>)
      requires WF(Snapshot())
      modifies this
      ensures DefAgrees(r, Snapshot(), DefineGlobals(sh, globals, 0, old(Snapshot()), fuel))
    {
      var i := 0;
      ghost var spec := DefineGlobals(sh, globals, 0, Snapshot(), fuel);
      while i < |globals|
        invariant i <= |globals| && WF(Snapshot())
        invariant spec == DefineGlobals(sh, globals, i, Snapshot(), fuel)
        decreases |globals| - i
      {
        var d := VisitGlobal(globals[i], fuel);
        if d.Err? { return d; }
        i := i + 1;
      }
      r := Ok(Nil);
    }

    /** The function loop of `visit(Ast.Source)`: each function in order, stopping at the first error. */
    method VisitFunctions(fs: seq<Function>) returns (r: Result<Value, RuntimeError>)
      requires WF(Snapshot())
      modifies this
      ensures DefAgrees(r, Snapshot(), DefineFunctions(fs, 0, old(Snapshot())))
    {
      var j := 0;
      ghost var spec := DefineFunctions(fs, 0, Snapshot());
      while j < |fs|
        invariant j <= |fs| && WF(Snapshot())
        invariant spec == DefineFunctions(fs, j, Snapshot())
        decreases |fs| - j
      {
        var d := VisitFunction(fs[j]);
        if d.Err? { return d; }
        j := j + 1;
      }
      r := Ok(Nil);
    }

    /** `visit(Ast.Source)`: the global loop, the function loop, then `main()`. */
    method VisitSource(src: Source, fuel: nat) returns (r: Result<Value, RuntimeError>)
      requires WF(Snapshot())
      modifies this
      ensures EvalAgrees(r, Snapshot(), Run(sh, src, old(Snapshot()), fuel))
    {
      var d := VisitGlobals(src.globals, fuel);
      if d.Err? { return d; }
      d := VisitFunctions(src.functions);
      if d.Err? { return d; }
      var main :- LookupFunction(Snapshot(), "main", 0);
      r := InvokeFunction(main, [], fuel);
    }
  }
}
