/**
 * A functional reading of the tree-walking interpreter (Interpreter.java). The
 * interpreter's mutable parts become one explicit `State`:
 *  - the scopes, as a store of frames (a scope reference is an index; each frame names
 *    its parent frame, which is always an older one);
 *  - the current scope reference (`null` is `None`);
 *  - the list store (a list value is an index into it, so lists are shared by reference);
 *  - the output log of the `print` builtin.
 * Exceptions are `Err` results and the thrown `Return` is the `Returned` outcome.
 * Every call and every loop iteration spends one unit of `fuel`.
 */
module Semantics {
  import opened Common
  import opened Ast
  import opened Values

  /** A variable cell: the mutability flag never changes, the value may. */
  datatype Variable = Variable(mutable: bool, value: Value)

  /** A function value: the `print` builtin, or a closure over the scope it was defined in. */
  datatype Callable = Print | Closure(params: seq<string>, body: seq<Stmt>, scope: Option<nat>)

  /** A scope: its parent, its variables and its functions keyed by (name, arity). */
  datatype Frame = Frame(parent: Option<nat>, variables: map<string, Variable>, functions: map<(string, nat), Callable>)

  datatype State = State(frames: seq<Frame>, scope: Option<nat>, lists: seq<seq<Value>>, out: seq<string>)

  /** The result of an expression: its value and the state after it. */
  datatype Ev = Ev(value: Value, st: State)
  datatype Evs = Evs(values: seq<Value>, st: State)

  /** How a statement completes: normally, or by `RETURN` with a value. */
  datatype Outcome = Normal | Returned(value: Value)
  datatype Ex = Ex(outcome: Outcome, st: State)

  // ---------------------------------------------------------------- well-formedness

  /** A value refers to a list only if that list exists. */
  predicate Below(v: Value, lists: nat) { v.List? ==> v.addr < lists }

  predicate CallableIn(c: Callable, frames: nat) { c.Closure? && c.scope.Some? ==> c.scope.value < frames }

  predicate ValidFrame(f: Frame, i: nat, frames: nat, lists: nat)
  {
    && (f.parent.Some? ==> f.parent.value < i)
    && (forall x :: x in f.variables ==> Below(f.variables[x].value, lists))
    && (forall k :: k in f.functions ==> CallableIn(f.functions[k], frames))
  }

  /** Scope references, closure scopes and list references all point into the state. */
  ghost predicate WF(st: State)
  {
    && (st.scope.Some? ==> st.scope.value < |st.frames|)
    && (forall i :: 0 <= i < |st.frames| ==> ValidFrame(st.frames[i], i, |st.frames|, |st.lists|))
    && (forall a, j :: 0 <= a < |st.lists| && 0 <= j < |st.lists[a]| ==> Below(st.lists[a][j], |st.lists|))
  }

  predicate FrameExtends(f: Frame, g: Frame)
  {
    && g.parent == f.parent
    && f.variables.Keys <= g.variables.Keys
  }

  /**
   * What every step of the interpreter keeps: scopes are never removed and keep their
   * parent, variables are never undefined, lists keep their length, and output is
   * only appended.
   */
  ghost predicate Extends(a: State, b: State)
  {
    && |a.frames| <= |b.frames| && |a.lists| <= |b.lists| && a.out <= b.out
    && (forall i :: 0 <= i < |a.frames| ==> FrameExtends(a.frames[i], b.frames[i]))
    && (forall i :: 0 <= i < |a.lists| ==> |b.lists[i]| == |a.lists[i]|)
  }

  ghost predicate Step(a: State, b: State) { WF(b) && Extends(a, b) }

  lemma StepTrans(a: State, b: State, c: State)
    requires Step(a, b) && Step(b, c)
    ensures Step(a, c)
  {
    forall i | 0 <= i < |a.frames| ensures FrameExtends(a.frames[i], c.frames[i]) {
      assert FrameExtends(a.frames[i], b.frames[i]) && FrameExtends(b.frames[i], c.frames[i]);
    }
  }

  // ---------------------------------------------------------------- scopes

  /** `new Scope(parent)` made the current scope. */
  function Enter(st: State, parent: Option<nat>): (r: State)
    requires WF(st) && (parent.Some? ==> parent.value < |st.frames|)
    ensures Step(st, r) && r.scope == Some(|st.frames|) && |r.frames| == |st.frames| + 1
    ensures r.frames[|st.frames|] == Frame(parent, map[], map[])
    ensures r.lists == st.lists && r.out == st.out
  {
    st.(frames := st.frames + [Frame(parent, map[], map[])], scope := Some(|st.frames|))
  }

  /** `scope = new Scope(scope)`. */
  function NewScope(st: State): (r: State)
    requires WF(st)
    ensures Step(st, r) && r.scope == Some(|st.frames|) && r.frames[|st.frames|].parent == st.scope
  {
    Enter(st, st.scope)
  }

  /** `scope = scope.getParent()`, which fails on a `null` scope. */
  function ParentScope(st: State): (r: Result<State, RuntimeError>)
    requires WF(st)
    ensures r.Ok? <==> st.scope.Some?
    ensures r.Ok? ==> Step(st, r.value) && r.value.scope == st.frames[st.scope.value].parent
    ensures r.Err? ==> r.error == NullPointer
  {
    if st.scope.None? then Err(NullPointer) else Ok(st.(scope := st.frames[st.scope.value].parent))
  }

  /** The frames on the parent chain from frame `i`: `i`, its parent, the parent's parent, and so on. */
  function Chain(st: State, i: nat): (c: set<nat>)
    requires WF(st) && i < |st.frames|
    ensures i in c && forall j :: j in c ==> j <= i
    decreases i
  {
    {i} + match st.frames[i].parent
      case None => {}
      case Some(p) => Chain(st, p)
  }

  /** The frame that defines `name`, searching from frame `i` outward along the parents. */
  function FindVariable(st: State, i: nat, name: string): (r: Result<nat, RuntimeError>)
    requires WF(st) && i < |st.frames|
    ensures r.Ok? ==> r.value <= i && name in st.frames[r.value].variables
    ensures r.Err? ==> r.error == UndefinedVariable(name)
    decreases i
  {
    if name in st.frames[i].variables then Ok(i)
    else match st.frames[i].parent
      case None => Err(UndefinedVariable(name))
      case Some(p) => FindVariable(st, p, name)
  }

  /**
   * The search finds the nearest frame on the chain that defines `name` (parents have
   * smaller indices, so every frame passed over has a larger one), and fails exactly
   * when no frame on the chain defines it.
   */
  lemma {:induction false} FindVariableNearest(st: State, i: nat, name: string)
    requires WF(st) && i < |st.frames|
    ensures var r := FindVariable(st, i, name);
      r.Ok? ==> (r.value in Chain(st, i)
                 && forall j :: j in Chain(st, i) && j > r.value ==> name !in st.frames[j].variables)
    ensures FindVariable(st, i, name).Err? <==> forall j :: j in Chain(st, i) ==> name !in st.frames[j].variables
    decreases i
  {
    if name !in st.frames[i].variables && st.frames[i].parent.Some? {
      FindVariableNearest(st, st.frames[i].parent.value, name);
    }
  }

  /** `scope.lookupVariable(name)`: the frame holding the variable's cell. */
  function LookupVariable(st: State, name: string): (r: Result<nat, RuntimeError>)
    requires WF(st)
    ensures r.Ok? ==> r.value < |st.frames| && name in st.frames[r.value].variables
  {
    if st.scope.None? then Err(NullPointer) else FindVariable(st, st.scope.value, name)
  }

  /** `lookupVariable` from the current scope: the nearest defining frame on its chain, or undefined; no scope is a `NullPointerException`. */
  lemma LookupVariableNearest(st: State, name: string)
    requires WF(st)
    ensures st.scope.None? ==> LookupVariable(st, name) == Err(NullPointer)
    ensures st.scope.Some? ==> var r := LookupVariable(st, name);
      && (r.Ok? ==> (r.value in Chain(st, st.scope.value)
                     && forall j :: j in Chain(st, st.scope.value) && j > r.value ==> name !in st.frames[j].variables))
      && (r.Err? <==> forall j :: j in Chain(st, st.scope.value) ==> name !in st.frames[j].variables)
  {
    if st.scope.Some? {
      FindVariableNearest(st, st.scope.value, name);
    }
  }

  function CellOf(st: State, f: nat, name: string): (v: Variable)
    requires WF(st) && f < |st.frames| && name in st.frames[f].variables
    ensures Below(v.value, |st.lists|)
  {
    st.frames[f].variables[name]
  }

  function FindFunction(st: State, i: nat, name: string, arity: nat): (r: Result<Callable, RuntimeError>)
    requires WF(st) && i < |st.frames|
    ensures r.Ok? ==> CallableIn(r.value, |st.frames|)
    ensures r.Err? ==> r.error == UndefinedFunction(name, arity)
    decreases i
  {
    if (name, arity) in st.frames[i].functions then Ok(st.frames[i].functions[(name, arity)])
    else match st.frames[i].parent
      case None => Err(UndefinedFunction(name, arity))
      case Some(p) => FindFunction(st, p, name, arity)
  }

  /**
   * The search finds the function of the nearest frame on the chain that defines
   * (`name`, `arity`), and fails exactly when no frame on the chain defines it.
   */
  lemma {:induction false} FindFunctionNearest(st: State, i: nat, name: string, arity: nat)
    requires WF(st) && i < |st.frames|
    ensures var r := FindFunction(st, i, name, arity);
      r.Ok? ==> (exists f :: (f in Chain(st, i) && (name, arity) in st.frames[f].functions
                              && r.value == st.frames[f].functions[(name, arity)]
                              && forall j :: j in Chain(st, i) && j > f ==> (name, arity) !in st.frames[j].functions))
    ensures FindFunction(st, i, name, arity).Err? <==>
      forall j :: j in Chain(st, i) ==> (name, arity) !in st.frames[j].functions
    decreases i
  {
    if (name, arity) !in st.frames[i].functions && st.frames[i].parent.Some? {
      FindFunctionNearest(st, st.frames[i].parent.value, name, arity);
    }
  }

  /** `scope.lookupFunction(name, arity)`. */
  function LookupFunction(st: State, name: string, arity: nat): (r: Result<Callable, RuntimeError>)
    requires WF(st)
    ensures r.Ok? ==> CallableIn(r.value, |st.frames|)
  {
    if st.scope.None? then Err(NullPointer) else FindFunction(st, st.scope.value, name, arity)
  }

  /** `lookupFunction` from the current scope: the nearest definition on its chain, or undefined; no scope is a `NullPointerException`. */
  lemma LookupFunctionNearest(st: State, name: string, arity: nat)
    requires WF(st)
    ensures st.scope.None? ==> LookupFunction(st, name, arity) == Err(NullPointer)
    ensures st.scope.Some? ==> var r := LookupFunction(st, name, arity);
      && (r.Ok? ==> (exists f :: (f in Chain(st, st.scope.value) && (name, arity) in st.frames[f].functions
                                  && r.value == st.frames[f].functions[(name, arity)]
                                  && forall j :: j in Chain(st, st.scope.value) && j > f ==> (name, arity) !in st.frames[j].functions)))
      && (r.Err? <==> forall j :: j in Chain(st, st.scope.value) ==> (name, arity) !in st.frames[j].functions)
  {
    if st.scope.Some? {
      FindFunctionNearest(st, st.scope.value, name, arity);
    }
  }

  /** `scope.defineVariable(name, mutable, value)`: a new cell in the current scope. */
  function DefineVariable(st: State, name: string, mutable: bool, v: Value): (r: Result<State, RuntimeError>)
    requires WF(st) && Below(v, |st.lists|)
    ensures r.Ok? <==> st.scope.Some? && name !in st.frames[st.scope.value].variables
    ensures r.Ok? ==> Step(st, r.value) && r.value.scope == st.scope && r.value.lists == st.lists
                      && r.value.out == st.out && |r.value.frames| == |st.frames|
    ensures r.Ok? ==> r.value.frames[st.scope.value].variables == st.frames[st.scope.value].variables[name := Variable(mutable, v)]
  {
    if st.scope.None? then Err(NullPointer)
    else
      var s := st.scope.value;
      var f := st.frames[s];
      if name in f.variables then Err(AlreadyDefined(name))
      else Ok(st.(frames := st.frames[s := f.(variables := f.variables[name := Variable(mutable, v)])]))
  }

  /** `scope.defineFunction(name, arity, function)`. */
  function DefineFunction(st: State, name: string, arity: nat, c: Callable): (r: Result<State, RuntimeError>)
    requires WF(st) && CallableIn(c, |st.frames|)
    ensures r.Ok? ==> Step(st, r.value) && r.value.scope == st.scope && r.value.lists == st.lists && r.value.out == st.out
    ensures r.Ok? <==> st.scope.Some? && (name, arity) !in st.frames[st.scope.value].functions
    ensures r.Ok? ==> r.value.frames[st.scope.value].functions == st.frames[st.scope.value].functions[(name, arity) := c]
  {
    if st.scope.None? then Err(NullPointer)
    else
      var s := st.scope.value;
      var f := st.frames[s];
      if (name, arity) in f.functions then Err(AlreadyDefined(name))
      else Ok(st.(frames := st.frames[s := f.(functions := f.functions[(name, arity) := c])]))
  }

  /** `Variable.setValue`: the cell keeps its mutability. */
  function SetVariable(st: State, f: nat, name: string, v: Value): (r: State)
    requires WF(st) && f < |st.frames| && name in st.frames[f].variables && Below(v, |st.lists|)
    ensures Step(st, r) && r.scope == st.scope && r.lists == st.lists && r.out == st.out
    ensures r.frames[f].variables[name] == Variable(st.frames[f].variables[name].mutable, v)
  {
    var fr := st.frames[f];
    st.(frames := st.frames[f := fr.(variables := fr.variables[name := Variable(fr.variables[name].mutable, v)])])
  }

  /** `List.set(i, v)` on the list at `a`, in place: every other element and list is unchanged. */
  function SetElement(st: State, a: nat, i: nat, v: Value): (r: State)
    requires WF(st) && a < |st.lists| && i < |st.lists[a]| && Below(v, |st.lists|)
    ensures Step(st, r) && r.frames == st.frames && r.scope == st.scope && r.out == st.out
    ensures r.lists == st.lists[a := st.lists[a][i := v]]
  {
    st.(lists := st.lists[a := st.lists[a][i := v]])
  }

  /** A new list holding `vals`, and a reference to it. */
  function Allocate(st: State, vals: seq<Value>): (r: Ev)
    requires WF(st) && forall v :: v in vals ==> Below(v, |st.lists|)
    ensures Step(st, r.st) && r.value == List(|st.lists|) && r.st.lists == st.lists + [vals]
    ensures r.st.frames == st.frames && r.st.scope == st.scope && r.st.out == st.out
  {
    var r := Ev(List(|st.lists|), st.(lists := st.lists + [vals]));
    assert forall a, j :: 0 <= a < |r.st.lists| && 0 <= j < |r.st.lists[a]| ==> Below(r.st.lists[a][j], |r.st.lists|) by {
      forall a, j | 0 <= a < |r.st.lists| && 0 <= j < |r.st.lists[a]|
        ensures Below(r.st.lists[a][j], |r.st.lists|)
      {
        if a == |st.lists| {
          var v := vals[j];
          assert v in vals;
          assert r.st.lists[a][j] == v;
          assert Below(v, |st.lists|);
        } else {
          assert r.st.lists[a] == st.lists[a];
          assert Below(st.lists[a][j], |st.lists|);
        }
      }
    }
    r
  }

  // ---------------------------------------------------------------- expressions

  predicate AllBelow(vs: seq<Value>, lists: nat) { forall v :: v in vs ==> Below(v, lists) }

  ghost predicate EvOk(st: State, r: Ev) { Step(st, r.st) && Below(r.value, |r.st.lists|) }

  /** `visit(Ast.Expression)`. */
  function Eval(sh: Show, e: Expr, st: State, fuel: nat): (r: Result<Ev, RuntimeError>)
    requires WF(st)
    ensures r.Ok? ==> EvOk(st, r.value)
    decreases fuel, ExprSize(e), 2, 0
  {
    match e
    case Literal(lit) => Ok(Ev(LiteralValue(lit), st))
    case Group(inner) => Eval(sh, inner, st, fuel)
    case Binary(_, _, _) => EvalBinary(sh, e, st, fuel)
    case Access(offset, name) =>
      if offset.Some? then EvalIndex(sh, e, st, fuel)
      else
        var f :- LookupVariable(st, name);
        Ok(Ev(CellOf(st, f, name).value, st))
    case Call(fname, args) =>
      var vs :- EvalArgs(sh, args, 0, st, fuel);
      var f :- LookupFunction(vs.st, fname, |args|);
      Invoke(sh, f, vs.values, vs.st, fuel)
    case PlcList(values) =>
      var vs :- EvalArgs(sh, values, 0, st, fuel);
      Ok(Allocate(vs.st, vs.values))
  }

  /** The arguments of a call or the elements of a list literal, left to right, from `i`. */
  function EvalArgs(sh: Show, es: seq<Expr>, i: nat, st: State, fuel: nat): (r: Result<Evs, RuntimeError>)
    requires WF(st) && i <= |es|
    ensures r.Ok? ==> Step(st, r.value.st) && |r.value.values| == |es| - i && AllBelow(r.value.values, |r.value.st.lists|)
    decreases fuel, ExprsSize(es), 1, |es| - i
  {
    if i == |es| then Ok(Evs([], st))
    else
      ExprsSizeAt(es, i);
      var v :- Eval(sh, es[i], st, fuel);
      var rest :- EvalArgs(sh, es, i + 1, v.st, fuel);
      Ok(Evs([v.value] + rest.values, rest.st))
  }

  /**
   * `visit(Ast.Expression.Binary)`. The left operand is evaluated once before the
   * operator is looked at, and again by the operator's own branch.
   */
  function EvalBinary(sh: Show, e: Expr, st: State, fuel: nat): (r: Result<Ev, RuntimeError>)
    requires WF(st) && e.Binary?
    ensures r.Ok? ==> EvOk(st, r.value)
    decreases fuel, ExprSize(e), 1, 0
  {
    var first :- Eval(sh, e.left, st, fuel);
    var v :- Dispatch(sh, e, first.st, fuel);
    StepTrans(st, first.st, v.st);
    Ok(v)
  }

  /** The operator branches of `visit(Ast.Expression.Binary)`, after the extra left evaluation. */
  function Dispatch(sh: Show, e: Expr, st: State, fuel: nat): (r: Result<Ev, RuntimeError>)
    requires WF(st) && e.Binary?
    ensures r.Ok? ==> EvOk(st, r.value)
    decreases fuel, ExprSize(e), 0, 1
  {
    if e.op == "&&" || e.op == "||" then EvalLogical(sh, e, st, fuel)
    else if IsComparison(e.op) then EvalComparison(sh, e, st, fuel)
    else if IsArithmetic(e.op) then EvalArithmetic(sh, e, st, fuel)
    else
      var r :- Eval(sh, e.right, st, fuel);
      Ok(Ev(Nil, r.st))
  }

  /** `&&` and `||`: the right operand is evaluated only when the left does not decide the result. */
  function EvalLogical(sh: Show, e: Expr, st: State, fuel: nat): (r: Result<Ev, RuntimeError>)
    requires WF(st) && e.Binary? && (e.op == "&&" || e.op == "||")
    ensures r.Ok? ==> EvOk(st, r.value)
    decreases fuel, ExprSize(e), 0, 0
  {
    var l :- Eval(sh, e.left, st, fuel);
    var lb :- RequireBool(l.value);
    if e.op == "&&" && !lb then Ok(Ev(Bool(false), l.st))
    else if e.op == "||" && lb then Ok(Ev(Bool(true), l.st))
    else
      var r :- Eval(sh, e.right, l.st, fuel);
      var rb :- RequireBool(r.value);
      Ok(Ev(Bool(rb), r.st))
  }

  /** `<`, `>`, `==`, `!=`: both operands must be `Comparable`, and of the same class. */
  function EvalComparison(sh: Show, e: Expr, st: State, fuel: nat): (r: Result<Ev, RuntimeError>)
    requires WF(st) && e.Binary? && IsComparison(e.op)
    ensures r.Ok? ==> EvOk(st, r.value)
    decreases fuel, ExprSize(e), 0, 0
  {
    var l :- Eval(sh, e.left, st, fuel);
    var lc :- RequireComparable(l.value);
    var r :- Eval(sh, e.right, l.st, fuel);
    var rc :- RequireComparable(r.value);
    var c :- CompareValues(lc, rc);
    Ok(Ev(Bool(Holds(e.op, c)), r.st))
  }

  /** `+ - * / ^`: both operands are evaluated, then the operator is applied to their values. */
  function EvalArithmetic(sh: Show, e: Expr, st: State, fuel: nat): (r: Result<Ev, RuntimeError>)
    requires WF(st) && e.Binary? && IsArithmetic(e.op)
    ensures r.Ok? ==> EvOk(st, r.value)
    decreases fuel, ExprSize(e), 0, 0
  {
    var l :- Eval(sh, e.left, st, fuel);
    var r :- Eval(sh, e.right, l.st, fuel);
    assert Below(l.value, |r.st.lists|);
    var v :- Arith(sh, e.op, l.value, r.value, r.st.lists);
    Ok(Ev(v, r.st))
  }

  /** `visit(Ast.Expression.Access)` with an offset: a bounds-checked list element. */
  function EvalIndex(sh: Show, e: Expr, st: State, fuel: nat): (r: Result<Ev, RuntimeError>)
    requires WF(st) && e.Access? && e.offset.Some?
    ensures r.Ok? ==> EvOk(st, r.value)
    decreases fuel, ExprSize(e), 1, 0
  {
    var o :- Eval(sh, e.offset.value, st, fuel);
    var i :- RequireInt(o.value);
    var f :- LookupVariable(o.st, e.name);
    var a :- RequireList(CellOf(o.st, f, e.name).value);
    var elems := o.st.lists[a];
    if i < 0 || i > |elems| - 1 then Err(RuntimeException("Offset out of range!"))
    else Ok(Ev(elems[i], o.st))
  }

  /**
   * `Environment.Function.invoke`: the builtin prints its argument; a closure runs its
   * body in a fresh child of its definition scope, with the parameters bound to the
   * arguments, and the caller's scope is restored afterwards.
   */
  function Invoke(sh: Show, f: Callable, vals: seq<Value>, st: State, fuel: nat): (r: Result<Ev, RuntimeError>)
    requires WF(st) && AllBelow(vals, |st.lists|) && CallableIn(f, |st.frames|)
    ensures r.Ok? ==> EvOk(st, r.value) && r.value.st.scope == st.scope
    decreases fuel, 0, 1, 0
  {
    match f
    case Print =>
      if |vals| == 0 then Err(IndexOutOfBounds(0))
      else
        assert vals[0] in vals;
        Ok(Ev(Nil, st.(out := st.out + [Text(sh, vals[0], st.lists)])))
    case Closure(params, body, scope) =>
      if fuel == 0 then Err(OutOfFuel) else Apply(sh, f, vals, st, fuel)
  }

  /** A closure call; the body runs with one unit of `fuel` less. */
  function Apply(sh: Show, f: Callable, vals: seq<Value>, st: State, fuel: nat): (r: Result<Ev, RuntimeError>)
    requires WF(st) && AllBelow(vals, |st.lists|) && f.Closure? && CallableIn(f, |st.frames|) && fuel > 0
    ensures r.Ok? ==> EvOk(st, r.value) && r.value.st.scope == st.scope
    decreases fuel, 0, 0, 0
  {
    var callee := Enter(st, f.scope);
    var bound :- BindParams(f.params, vals, 0, callee);
    var ex :- ExecBlock(sh, f.body, 0, bound, fuel - 1);
    StepTrans(st, callee, bound);
    StepTrans(st, bound, ex.st);
    var result := if ex.outcome.Returned? then ex.outcome.value else Nil;
    Ok(Ev(result, ex.st.(scope := st.scope)))
  }

  /** The parameter loop of a closure: parameter `i` is defined as a mutable cell holding argument `i`. */
  function BindParams(params: seq<string>, vals: seq<Value>, i: nat, st: State): (r: Result<State, RuntimeError>)
    requires WF(st) && AllBelow(vals, |st.lists|) && i <= |params|
    ensures r.Ok? ==> Step(st, r.value) && r.value.scope == st.scope && r.value.lists == st.lists
                      && r.value.out == st.out && |r.value.frames| == |st.frames|
    decreases |params| - i
  {
    if i == |params| then Ok(st)
    else if i >= |vals| then Err(IndexOutOfBounds(i))
    else
      var next :- DefineVariable(st, params[i], true, vals[i]);
      BindParams(params, vals, i + 1, next)
  }

  // ---------------------------------------------------------------- statements

  ghost predicate ExOk(st: State, r: Ex) { Step(st, r.st) && (r.outcome.Returned? ==> Below(r.outcome.value, |r.st.lists|)) }

  /** The statements of a block from `i`, stopping at the first `RETURN`. */
  function ExecBlock(sh: Show, ss: seq<Stmt>, i: nat, st: State, fuel: nat): (r: Result<Ex, RuntimeError>)
    requires WF(st) && i <= |ss|
    ensures r.Ok? ==> ExOk(st, r.value)
    decreases fuel, StmtsSize(ss), 0, |ss| - i
  {
    if i == |ss| then Ok(Ex(Normal, st))
    else
      StmtsSizeAt(ss, i);
      var ex :- ExecStmt(sh, ss[i], st, fuel);
      if ex.outcome.Returned? then Ok(ex) else ExecBlock(sh, ss, i + 1, ex.st, fuel)
  }

  /** `visit(Ast.Statement)`. */
  function ExecStmt(sh: Show, s: Stmt, st: State, fuel: nat): (r: Result<Ex, RuntimeError>)
    requires WF(st)
    ensures r.Ok? ==> ExOk(st, r.value)
    decreases fuel, StmtSize(s), 2, 0
  {
    match s
    case ExprStmt(e) =>
      var v :- Eval(sh, e, st, fuel);
      Ok(Ex(Normal, v.st))
    case Declaration(name, _, init) =>
      var v :- if init.Some? then Eval(sh, init.value, st, fuel) else Ok(Ev(Nil, st));
      var next :- DefineVariable(v.st, name, true, v.value);
      Ok(Ex(Normal, next))
    case Assignment(_, _) => ExecAssignment(sh, s, st, fuel)
    case If(_, _, _) => ExecIf(sh, s, st, fuel)
    case Switch(_, _) => SwitchScan(sh, s, 0, NewScope(st), fuel)
    case While(_, _) => ExecWhile(sh, s, st, fuel)
    case Return(e) =>
      var v :- Eval(sh, e, st, fuel);
      Ok(Ex(Returned(v.value), v.st))
  }

  /**
   * `visit(Ast.Statement.Assignment)`. The receiver's cell is looked up and its
   * mutability checked before the offset or the value is evaluated; an indexed
   * assignment checks the bounds before evaluating the value.
   */
  function ExecAssignment(sh: Show, s: Stmt, st: State, fuel: nat): (r: Result<Ex, RuntimeError>)
    requires WF(st) && s.Assignment?
    ensures r.Ok? ==> ExOk(st, r.value)
    decreases fuel, StmtSize(s), 1, 0
  {
    if !s.receiver.Access? then Err(RuntimeException("Receiver is not of type Ast.Expression.Access!"))
    else
      var name := s.receiver.name;
      var f :- LookupVariable(st, name);
      if !CellOf(st, f, name).mutable then Err(RuntimeException("Cannot modify immutable environment variable!"))
      else if s.receiver.offset.Some? then AssignIndex(sh, s, f, st, fuel)
      else
        var v :- Eval(sh, s.rhs, st, fuel);
        Ok(Ex(Normal, SetVariable(v.st, f, name, v.value)))
  }

  /**
   * The indexed branch of an assignment to the mutable variable whose cell is in frame
   * `f`: the offset is evaluated and bounds-checked before the value is evaluated, and
   * the list is updated in place.
   */
  function AssignIndex(sh: Show, s: Stmt, f: nat, st: State, fuel: nat): (r: Result<Ex, RuntimeError>)
    requires WF(st) && s.Assignment? && s.receiver.Access? && s.receiver.offset.Some?
    requires f < |st.frames| && s.receiver.name in st.frames[f].variables
    ensures r.Ok? ==> ExOk(st, r.value)
    decreases fuel, StmtSize(s), 0, 0
  {
    var name := s.receiver.name;
    var o :- Eval(sh, s.receiver.offset.value, st, fuel);
    var i :- RequireInt(o.value);
    var a :- RequireList(CellOf(o.st, f, name).value);
    if i < 0 || i > |o.st.lists[a]| - 1 then Err(RuntimeException("Offset out of range!"))
    else
      var v :- Eval(sh, s.rhs, o.st, fuel);
      Ok(Ex(Normal, SetElement(v.st, a, i, v.value)))
  }

  /**
   * `visit(Ast.Statement.If)`: the new scope is pushed before the condition is
   * evaluated, and popped only when the branch completes normally.
   */
  function ExecIf(sh: Show, s: Stmt, st: State, fuel: nat): (r: Result<Ex, RuntimeError>)
    requires WF(st) && s.If?
    ensures r.Ok? ==> ExOk(st, r.value)
    decreases fuel, StmtSize(s), 1, 0
  {
    var inner := NewScope(st);
    var c :- Eval(sh, s.cond, inner, fuel);
    var b :- RequireBool(c.value);
    var ex :- ExecBranch(sh, if b then s.thenBody else s.elseBody, c.st, fuel);
    StepTrans(st, inner, c.st);
    StepTrans(st, c.st, ex.st);
    Ok(ex)
  }

  /** A branch of an `IF`, then its scope is popped unless the branch returned. */
  function ExecBranch(sh: Show, ss: seq<Stmt>, st: State, fuel: nat): (r: Result<Ex, RuntimeError>)
    requires WF(st)
    ensures r.Ok? ==> ExOk(st, r.value)
    decreases fuel, StmtsSize(ss), 1, 0
  {
    var ex :- ExecBlock(sh, ss, 0, st, fuel);
    if ex.outcome.Returned? then Ok(ex)
    else
      var next :- ParentScope(ex.st);
      Ok(Ex(Normal, next))
  }

  /**
   * The case loop of `visit(Ast.Statement.Switch)` from case `i`, in the scope the
   * switch pushed and never pops. The condition is evaluated again for every valued
   * case; the first case whose value `equals` it runs; if none does, the last case runs.
   */
  function SwitchScan(sh: Show, s: Stmt, i: nat, st: State, fuel: nat): (r: Result<Ex, RuntimeError>)
    requires WF(st) && s.Switch? && i <= |s.cases|
    ensures r.Ok? ==> ExOk(st, r.value)
    decreases fuel, StmtSize(s), 1, |s.cases| - i
  {
    if i == |s.cases| then
      if |s.cases| == 0 then Err(IndexOutOfBounds(-1))
      else
        CasesSizeAt(s.cases, |s.cases| - 1);
        ExecBlock(sh, s.cases[|s.cases| - 1].body, 0, st, fuel)
    else if s.cases[i].value.None? then SwitchScan(sh, s, i + 1, st, fuel)
    else
      CasesSizeAt(s.cases, i);
      var c :- Eval(sh, s.cond, st, fuel);
      var cv :- RequireComparable(c.value);
      var k :- Eval(sh, s.cases[i].value.value, c.st, fuel);
      var kv :- RequireComparable(k.value);
      if cv == kv then ExecBlock(sh, s.cases[i].body, 0, k.st, fuel)
      else SwitchScan(sh, s, i + 1, k.st, fuel)
  }

  /**
   * `visit(Ast.Statement.While)`: the condition is checked in the current scope, a new
   * scope is pushed for every iteration, and one scope is popped after the loop.
   */
  function ExecWhile(sh: Show, s: Stmt, st: State, fuel: nat): (r: Result<Ex, RuntimeError>)
    requires WF(st) && s.While?
    ensures r.Ok? ==> ExOk(st, r.value)
    decreases fuel, StmtSize(s), 1, 0
  {
    var c :- Eval(sh, s.cond, st, fuel);
    var b :- RequireBool(c.value);
    if !b then
      var next :- ParentScope(c.st);
      Ok(Ex(Normal, next))
    else
      var ex :- ExecBlock(sh, s.body, 0, NewScope(c.st), fuel);
      if ex.outcome.Returned? then Ok(ex)
      else if fuel == 0 then Err(OutOfFuel)
      else ExecWhile(sh, s, ex.st, fuel - 1)
  }

  // ---------------------------------------------------------------- globals, functions, source

  /** `visit(Ast.Global)`: an immutable global must have a value. */
  function DefineGlobal(sh: Show, g: Global, st: State, fuel: nat): (r: Result<State, RuntimeError>)
    requires WF(st)
    ensures r.Ok? ==> Step(st, r.value)
  {
    if g.mutable then
      var v :- if g.value.Some? then Eval(sh, g.value.value, st, fuel) else Ok(Ev(Nil, st));
      DefineVariable(v.st, g.name, true, v.value)
    else if g.value.Some? then
      var v :- Eval(sh, g.value.value, st, fuel);
      DefineVariable(v.st, g.name, false, v.value)
    else Err(RuntimeException("Value must be declared for immutable type"))
  }

  /** `visit(Ast.Function)`: a closure over the current scope, keyed by name and arity. */
  function DefineFunctionDecl(f: Function, st: State): (r: Result<State, RuntimeError>)
    requires WF(st)
    ensures r.Ok? ==> Step(st, r.value)
  {
    DefineFunction(st, f.name, |f.params|, Closure(f.params, f.body, st.scope))
  }

  function DefineGlobals(sh: Show, gs: seq<Global>, i: nat, st: State, fuel: nat): (r: Result<State, RuntimeError>)
    requires WF(st) && i <= |gs|
    ensures r.Ok? ==> Step(st, r.value)
    decreases |gs| - i
  {
    if i == |gs| then Ok(st)
    else
      var next :- DefineGlobal(sh, gs[i], st, fuel);
      DefineGlobals(sh, gs, i + 1, next, fuel)
  }

  function DefineFunctions(fs: seq<Function>, i: nat, st: State): (r: Result<State, RuntimeError>)
    requires WF(st) && i <= |fs|
    ensures r.Ok? ==> Step(st, r.value)
    decreases |fs| - i
  {
    if i == |fs| then Ok(st)
    else
      var next :- DefineFunctionDecl(fs[i], st);
      DefineFunctions(fs, i + 1, next)
  }

  /**
   * The state the constructor builds from the state holding its `parent` scope
   * (`parent.scope`; `None` for `null`): one new scope, whose parent that is, holding
   * `print/1`.
   */
  function Initial(parent: State): (st: State)
    requires WF(parent)
    ensures Step(parent, st) && st.lists == parent.lists && st.out == parent.out
    ensures st.scope == Some(|parent.frames|) && |st.frames| == |parent.frames| + 1
    ensures st.frames[|parent.frames|] == Frame(parent.scope, map[], map[("print", 1) := Print])
  {
    var frame := Frame(parent.scope, map[], map[("print", 1) := Print]);
    var st := parent.(frames := parent.frames + [frame], scope := Some(|parent.frames|));
    assert forall i :: 0 <= i < |parent.frames| ==> st.frames[i] == parent.frames[i];
    st
  }

  /** `visit(Ast.Source)` from state `st`: globals, then functions, then `main()` with no arguments. */
  function Run(sh: Show, src: Source, st: State, fuel: nat): (r: Result<Ev, RuntimeError>)
    requires WF(st)
    ensures r.Ok? ==> EvOk(st, r.value)
  {
    var st1 :- DefineGlobals(sh, src.globals, 0, st, fuel);
    var st2 :- DefineFunctions(src.functions, 0, st1);
    var main :- LookupFunction(st2, "main", 0);
    Invoke(sh, main, [], st2, fuel)
  }
}
