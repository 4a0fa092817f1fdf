/**
 * Properties of the interpreter's reference semantics (module Semantics) and of its
 * operators on values (module Values): the arithmetic the interpreter promises, the
 * order in which operands and statements are evaluated, and the scope behaviour of
 * `IF`, `SWITCH` and `WHILE` as Interpreter.java writes it.
 */
module InterpreterProps {
  import opened Common
  import opened Ast
  import opened Values
  import opened Semantics

  // ---------------------------------------------------------------- division

  /** Integer and decimal division by zero fail, whatever the dividend. */
  lemma DivisionByZeroFails(l: Value, r: Value)
    requires (l.Int? && r == Int(0)) || (l.Dec? && r.Dec? && r.d.unscaled == 0)
    ensures Divide(l, r) == Err(RuntimeException(if l.Int? then "Cannot divide by 0" else "Cannot divide by 0.0"))
  {
  }

  /**
   * The integer quotient is the one truncated toward zero: for any divisor `b` and any
   * candidate quotient `q` whose product does not exceed the dividend in magnitude and
   * leaves a remainder smaller than the divisor, `q` is what `/` yields.
   */
  lemma {:induction false} QuotientIsTruncated(a: int, b: int, q: int)
    requires b != 0
    requires Abs(q * b) <= Abs(a) && Abs(a - q * b) < Abs(b)
    ensures Divide(Int(a), Int(b)) == Ok(Int(q))
  {
    var t := TruncDiv(a, b);
    QuotientUnique(a, b, q, t);
  }

  lemma QuotientUnique(a: int, b: int, q: int, t: int)
    requires b != 0
    requires Abs(q * b) <= Abs(a) && Abs(a - q * b) < Abs(b)
    requires Abs(t * b) <= Abs(a) && Abs(a - t * b) < Abs(b)
    ensures q == t
  {
    if q != t {
      // both products lie in a half-open interval of width |b| on the dividend's side
      // of zero, yet two distinct multiples of b are at least |b| apart
      CloseProducts(a, Abs(b), q * b, t * b);
      assert q * b - t * b == (q - t) * b;
      AtLeastDivisor(q - t, b);
    }
  }

  lemma CloseProducts(a: int, y: int, p: int, t: int)
    requires y > 0
    requires Abs(p) <= Abs(a) && Abs(a - p) < y
    requires Abs(t) <= Abs(a) && Abs(a - t) < y
    ensures Abs(p - t) < y
  {
  }

  lemma AtLeastDivisor(d: int, b: int)
    requires d != 0 && b != 0
    ensures Abs(d * b) >= Abs(b)
  {
    if d > 0 && b > 0 { assert d * b >= b; }
    else if d > 0 { assert d * b <= b; }
    else if b > 0 { assert d * b <= -b; }
    else { assert d * b >= -b; }
  }

  /**
   * Java truncates toward zero: `-7 / 2` is `-3` and `7 / -2` is `-3`, where Dafny's own
   * Euclidean `/` gives `-4` and `-3`.
   */
  lemma DivisionExamples()
    ensures Divide(Int(-7), Int(2)) == Ok(Int(-3))
    ensures Divide(Int(7), Int(-2)) == Ok(Int(-3))
    ensures Divide(Int(-7), Int(-2)) == Ok(Int(3))
  {
    var q := TruncDiv(-7, 2);
    assert q * 2 <= 7 && q * 2 >= -7;
  }

  // ---------------------------------------------------------------- exact decimals

  lemma {:induction false} Pow10Add(i: nat, j: nat)
    ensures Pow10(i + j) == Pow10(i) * Pow10(j)
    decreases j
  {
    if j > 0 {
      Pow10Add(i, j - 1);
      assert Pow10(i + j) == 10 * Pow10(i + j - 1);
    }
  }

  /** Rescaling to a larger scale multiplies by the corresponding power of ten. */
  lemma Rescale(d: BigDecimal, s: nat, t: nat)
    requires d.scale <= s <= t
    ensures Scaled(d, t) == Scaled(d, s) * Pow10(t - s)
  {
    Pow10Add(s - d.scale, t - s);
    assert Pow10(t - d.scale) == Pow10(s - d.scale) * Pow10(t - s);
  }

  /** `BigDecimal.add` is exact: seen at any common scale, the sum's digits are the operands' digits added. */
  lemma DecAddExact(a: BigDecimal, b: BigDecimal, t: nat)
    requires Max(a.scale, b.scale) <= t
    ensures Scaled(DecAdd(a, b), t) == Scaled(a, t) + Scaled(b, t)
  {
    var s := Max(a.scale, b.scale);
    Rescale(a, s, t);
    Rescale(b, s, t);
    Rescale(DecAdd(a, b), s, t);
    assert (Scaled(a, s) + Scaled(b, s)) * Pow10(t - s) == Scaled(a, s) * Pow10(t - s) + Scaled(b, s) * Pow10(t - s);
  }

  /** `BigDecimal.subtract` is exact in the same sense. */
  lemma DecSubExact(a: BigDecimal, b: BigDecimal, t: nat)
    requires Max(a.scale, b.scale) <= t
    ensures Scaled(DecSub(a, b), t) == Scaled(a, t) - Scaled(b, t)
  {
    var s := Max(a.scale, b.scale);
    Rescale(a, s, t);
    Rescale(b, s, t);
    Rescale(DecSub(a, b), s, t);
    assert (Scaled(a, s) - Scaled(b, s)) * Pow10(t - s) == Scaled(a, s) * Pow10(t - s) - Scaled(b, s) * Pow10(t - s);
  }

  /** `BigDecimal.multiply` is exact: at any scales of the operands, the product's digits are their digits multiplied. */
  lemma DecMulExact(a: BigDecimal, b: BigDecimal, s: nat, t: nat)
    requires a.scale <= s && b.scale <= t
    ensures Scaled(DecMul(a, b), s + t) == Scaled(a, s) * Scaled(b, t)
  {
    Pow10Add(s - a.scale, t - b.scale);
    var p := Pow10(s - a.scale);
    var q := Pow10(t - b.scale);
    assert Scaled(DecMul(a, b), s + t) == (a.unscaled * b.unscaled) * (p * q);
    assert (a.unscaled * b.unscaled) * (p * q) == (a.unscaled * p) * (b.unscaled * q);
  }

  lemma SignOfMultiple(x: int, p: int)
    requires p >= 1
    ensures Sign(x * p) == Sign(x)
  {
    if x > 0 { assert x * p >= x; }
    else if x < 0 { assert x * p <= x; }
  }

  /** `compareTo` on decimals compares values: at any common scale it is the sign of the difference. */
  lemma DecCompareAnyScale(a: BigDecimal, b: BigDecimal, t: nat)
    requires Max(a.scale, b.scale) <= t
    ensures DecCompare(a, b) == Sign(Scaled(a, t) - Scaled(b, t))
  {
    var s := Max(a.scale, b.scale);
    Rescale(a, s, t);
    Rescale(b, s, t);
    assert Scaled(a, t) - Scaled(b, t) == (Scaled(a, s) - Scaled(b, s)) * Pow10(t - s);
    SignOfMultiple(Scaled(a, s) - Scaled(b, s), Pow10(t - s));
  }

  /**
   * `1.0 == 1.00` holds under the `==` operator, which uses `compareTo`, while the two
   * values are not `equals`, so a `SWITCH` on one does not select a case of the other.
   */
  lemma DecimalEqualityIgnoresScale()
    ensures CompareValues(Dec(BigDecimal(10, 1)), Dec(BigDecimal(100, 2))) == Ok(0)
    ensures Holds("==", 0)
    ensures Dec(BigDecimal(10, 1)) != Dec(BigDecimal(100, 2))
  {
    assert Pow10(1) == 10;
  }

  // ---------------------------------------------------------------- addition

  /** `+` with a String on either side concatenates both operands' text. */
  lemma PlusConcatenates(sh: Show, l: Value, r: Value, lists: seq<seq<Value>>)
    requires Addressed(l, lists) && Addressed(r, lists) && (l.Str? || r.Str?)
    ensures Arith(sh, "+", l, r, lists) == Ok(Str(Text(sh, l, lists) + Text(sh, r, lists)))
    ensures l.Str? && r.Str? ==> Arith(sh, "+", l, r, lists) == Ok(Str(l.s + r.s))
  {
  }

  /**
   * Without a String, `+` needs both operands of the left operand's numeric kind and
   * gives their exact sum; a non-numeric left operand is an error.
   */
  lemma PlusAddsExactly(sh: Show, l: Value, r: Value, lists: seq<seq<Value>>)
    requires Addressed(l, lists) && Addressed(r, lists) && !l.Str? && !r.Str?
    ensures l.Int? && r.Int? ==> Arith(sh, "+", l, r, lists) == Ok(Int(l.i + r.i))
    ensures l.Int? && !r.Int? ==> Arith(sh, "+", l, r, lists) == Err(WrongType(IntegerClass, ClassOf(r)))
    ensures l.Dec? && r.Dec? ==>
      var v := Arith(sh, "+", l, r, lists);
      v.Ok? && v.value.Dec? && forall t: nat | Max(l.d.scale, r.d.scale) <= t ::
        Scaled(v.value.d, t) == Scaled(l.d, t) + Scaled(r.d, t)
    ensures l.Dec? && !r.Dec? ==> Arith(sh, "+", l, r, lists) == Err(WrongType(DecimalClass, ClassOf(r)))
    ensures !l.Int? && !l.Dec? ==> Arith(sh, "+", l, r, lists) == Err(RuntimeException("Invalid addition objects!"))
  {
    if l.Dec? && r.Dec? {
      forall t: nat | Max(l.d.scale, r.d.scale) <= t
        ensures Scaled(DecAdd(l.d, r.d), t) == Scaled(l.d, t) + Scaled(r.d, t)
      {
        DecAddExact(l.d, r.d, t);
      }
    }
  }

  // ---------------------------------------------------------------- power

  lemma {:induction false} IntPowAdd(b: int, m: nat, n: nat)
    ensures IntPow(b, m + n) == IntPow(b, m) * IntPow(b, n)
    decreases n
  {
    if n > 0 {
      IntPowAdd(b, m, n - 1);
      assert Pow(b, m + n) == b * Pow(b, m + n - 1);
      assert IntPow(b, n) == b * IntPow(b, n - 1);
    }
  }

  /**
   * Integer `^`: `b ^ 0` is one, `b ^ (n + 1)` is `b * b ^ n`, exponents add, and a
   * negative exponent gives one.
   */
  lemma IntegerPower(b: int, n: int)
    ensures Power(Int(b), Int(0)) == Ok(Int(1))
    ensures n >= 0 ==> Power(Int(b), Int(n + 1)) == Ok(Int(b * IntPow(b, n)))
    ensures n < 0 ==> Power(Int(b), Int(n)) == Ok(Int(1))
    ensures n >= 0 ==> forall m: nat :: IntPow(b, m + n) == IntPow(b, m) * IntPow(b, n)
  {
    assert Power(Int(b), Int(0)) == Ok(Int(1));
    if n >= 0 {
      assert IntPow(b, n) == Pow(b, n) && IntPow(b, n + 1) == b * Pow(b, n);
      assert Power(Int(b), Int(n + 1)) == Ok(Int(IntPow(b, n + 1)));
      forall m: nat ensures IntPow(b, m + n) == IntPow(b, m) * IntPow(b, n) {
        IntPowAdd(b, m, n);
      }
    } else {
      assert Power(Int(b), Int(n)) == Ok(Int(IntPow(b, n)));
    }
  }

  /** Decimal `^` with a natural exponent is exact: digits `u ^ n` at scale `n * s`; a negative exponent gives one. */
  lemma {:induction false} DecimalPower(d: BigDecimal, n: int)
    ensures n >= 0 ==> Power(Dec(d), Int(n)) == Ok(Dec(BigDecimal(Pow(d.unscaled, n), n * d.scale)))
    ensures n < 0 ==> Power(Dec(d), Int(n)) == Ok(Dec(BigDecimal(1, 0)))
    ensures Power(Dec(d), Dec(d)) == Err(WrongType(IntegerClass, DecimalClass))
  {
    if n > 0 {
      DecPowNatExact(d, n);
    }
  }

  lemma {:induction false} DecPowNatExact(d: BigDecimal, n: nat)
    ensures DecPowNat(d, n) == BigDecimal(Pow(d.unscaled, n), n * d.scale)
  {
    if n > 0 {
      DecPowNatExact(d, n - 1);
      assert Pow(d.unscaled, n) == Pow(d.unscaled, n - 1) * d.unscaled;
      assert (n - 1) * d.scale + d.scale == n * d.scale;
    }
  }

  // ---------------------------------------------------------------- binary expressions

  /**
   * `&&` and `||` after the left operand (evaluated a second time, from the state the
   * first evaluation left) gives `l`: a left operand that decides the result ends the
   * evaluation without touching the right operand; otherwise the right operand is
   * evaluated and must be a Boolean; a non-Boolean left operand is an error.
   */
  lemma ShortCircuit(sh: Show, e: Expr, st: State, fuel: nat, first: Ev, l: Ev)
    requires WF(st) && e.Binary? && (e.op == "&&" || e.op == "||")
    requires Eval(sh, e.left, st, fuel) == Ok(first)
    requires Eval(sh, e.left, first.st, fuel) == Ok(l)
    ensures !l.value.Bool? ==> Eval(sh, e, st, fuel) == Err(WrongType(BooleanClass, ClassOf(l.value)))
    ensures l.value.Bool? && (l.value.b == (e.op == "||")) ==>
      Eval(sh, e, st, fuel) == Ok(Ev(l.value, l.st))
    ensures l.value.Bool? && (l.value.b != (e.op == "||")) ==>
      Eval(sh, e, st, fuel) ==
        match Eval(sh, e.right, l.st, fuel)
        case Err(err) => Err(err)
        case Ok(r) => if r.value.Bool? then Ok(Ev(r.value, r.st)) else Err(WrongType(BooleanClass, ClassOf(r.value)))
  {
    var d := EvalLogical(sh, e, first.st, fuel);
    assert Dispatch(sh, e, first.st, fuel) == d;
    assert EvalBinary(sh, e, st, fuel) == d;
  }

  /** An operator that is neither logical, comparison nor arithmetic evaluates its right operand and yields NIL. */
  lemma UnknownOperatorYieldsNil(sh: Show, e: Expr, st: State, fuel: nat, first: Ev)
    requires WF(st) && e.Binary? && e.op != "&&" && e.op != "||" && !IsComparison(e.op) && !IsArithmetic(e.op)
    requires Eval(sh, e.left, st, fuel) == Ok(first)
    ensures Eval(sh, e, st, fuel) ==
      match Eval(sh, e.right, first.st, fuel)
      case Err(err) => Err(err)
      case Ok(r) => Ok(Ev(Nil, r.st))
  {
    assert EvalBinary(sh, e, st, fuel) == Dispatch(sh, e, first.st, fuel);
  }

  /** Function lookup depends on the scopes only. */
  lemma {:induction false} FindFunctionOnFrames(a: State, b: State, i: nat, name: string, arity: nat)
    requires WF(a) && WF(b) && a.frames == b.frames && i < |a.frames|
    ensures FindFunction(a, i, name, arity) == FindFunction(b, i, name, arity)
    decreases i
  {
    if (name, arity) !in a.frames[i].functions && a.frames[i].parent.Some? {
      FindFunctionOnFrames(a, b, a.frames[i].parent.value, name, arity);
    }
  }

  /**
   * The left operand of an arithmetic operator is evaluated twice: in
   * `print("x") + "y"` the text `x` is printed two times, and the sum is the text of
   * `print`'s NIL result followed by `y`.
   */
  lemma LeftOperandRunsTwice(sh: Show, st: State, fuel: nat)
    requires WF(st) && LookupFunction(st, "print", 1) == Ok(Print)
    ensures Eval(sh, Binary("+", Call("print", [Literal(LStr("x"))]), Literal(LStr("y"))), st, fuel)
         == Ok(Ev(Str(sh.nil + "y"), st.(out := st.out + ["x", "x"])))
  {
    var call := Call("print", [Literal(LStr("x"))]);
    var e := Binary("+", call, Literal(LStr("y")));
    var st1 := st.(out := st.out + ["x"]);
    var st2 := st.(out := st.out + ["x", "x"]);
    assert WF(st1) && WF(st2);
    var args := [Literal(LStr("x"))];
    assert args[0] == Literal(LStr("x")) && [Str("x")] + [] == [Str("x")];
    assert Eval(sh, Literal(LStr("x")), st, fuel) == Ok(Ev(Str("x"), st));
    assert EvalArgs(sh, [Literal(LStr("x"))], 1, st, fuel) == Ok(Evs([], st));
    assert EvalArgs(sh, [Literal(LStr("x"))], 0, st, fuel) == Ok(Evs([Str("x")], st));
    assert Eval(sh, call, st, fuel) == Ok(Ev(Nil, st1));
    assert Eval(sh, Literal(LStr("x")), st1, fuel) == Ok(Ev(Str("x"), st1));
    assert EvalArgs(sh, [Literal(LStr("x"))], 1, st1, fuel) == Ok(Evs([], st1));
    assert EvalArgs(sh, [Literal(LStr("x"))], 0, st1, fuel) == Ok(Evs([Str("x")], st1));
    FindFunctionOnFrames(st, st1, st.scope.value, "print", 1);
    assert LookupFunction(st1, "print", 1) == Ok(Print);
    assert st1.out + ["x"] == st2.out;
    assert Eval(sh, call, st1, fuel) == Ok(Ev(Nil, st2));
    assert Eval(sh, Literal(LStr("y")), st2, fuel) == Ok(Ev(Str("y"), st2));
    assert EvalArithmetic(sh, e, st1, fuel) == Ok(Ev(Str(sh.nil + "y"), st2));
    assert Dispatch(sh, e, st1, fuel) == Ok(Ev(Str(sh.nil + "y"), st2));
  }

  // ---------------------------------------------------------------- lists

  /**
   * An indexed access yields the element at the offset when the offset is within
   * `[0, size - 1]`, and "Offset out of range!" otherwise.
   */
  lemma IndexChecksBounds(sh: Show, e: Expr, st: State, fuel: nat, o: Ev, f: nat, a: nat)
    requires WF(st) && e.Access? && e.offset.Some?
    requires Eval(sh, e.offset.value, st, fuel) == Ok(o) && o.value.Int?
    requires LookupVariable(o.st, e.name) == Ok(f) && CellOf(o.st, f, e.name).value == List(a)
    ensures a < |o.st.lists|
    ensures var i := o.value.i;
      Eval(sh, e, st, fuel) ==
        if 0 <= i < |o.st.lists[a]| then Ok(Ev(o.st.lists[a][i], o.st))
        else Err(RuntimeException("Offset out of range!"))
  {
  }

  /**
   * An indexed assignment within bounds replaces exactly one element: element `i` of
   * list `a` becomes the value, every other element of every list, the scopes and the
   * output are those the value's evaluation left.
   */
  lemma IndexedAssignmentReplacesOne(sh: Show, s: Stmt, f: nat, st: State, fuel: nat, o: Ev, a: nat, v: Ev)
    requires WF(st) && s.Assignment? && s.receiver.Access? && s.receiver.offset.Some?
    requires f < |st.frames| && s.receiver.name in st.frames[f].variables
    requires Eval(sh, s.receiver.offset.value, st, fuel) == Ok(o) && o.value.Int?
    requires CellOf(o.st, f, s.receiver.name).value == List(a)
    requires 0 <= o.value.i < |o.st.lists[a]|
    requires Eval(sh, s.rhs, o.st, fuel) == Ok(v)
    ensures var r := AssignIndex(sh, s, f, st, fuel);
      && r.Ok? && r.value.outcome.Normal?
      && r.value.st.frames == v.st.frames && r.value.st.scope == v.st.scope && r.value.st.out == v.st.out
      && |r.value.st.lists| == |v.st.lists|
      && r.value.st.lists[a][o.value.i] == v.value
      && (forall b :: 0 <= b < |v.st.lists| ==> |r.value.st.lists[b]| == |v.st.lists[b]|)
      && (forall b, j :: 0 <= b < |v.st.lists| && 0 <= j < |v.st.lists[b]| && (b != a || j != o.value.i) ==>
            r.value.st.lists[b][j] == v.st.lists[b][j])
  {
    assert Extends(o.st, v.st);
  }

  /**
   * An indexed assignment whose offset is outside `[0, size - 1]` fails with "Offset out
   * of range!" before the value is evaluated: the value expression does not matter.
   */
  lemma IndexedAssignmentOutOfRange(sh: Show, s: Stmt, f: nat, st: State, fuel: nat, o: Ev, a: nat)
    requires WF(st) && s.Assignment? && s.receiver.Access? && s.receiver.offset.Some?
    requires f < |st.frames| && s.receiver.name in st.frames[f].variables
    requires Eval(sh, s.receiver.offset.value, st, fuel) == Ok(o) && o.value.Int?
    requires CellOf(o.st, f, s.receiver.name).value == List(a)
    requires !(0 <= o.value.i < |o.st.lists[a]|)
    ensures AssignIndex(sh, s, f, st, fuel) == Err(RuntimeException("Offset out of range!"))
    ensures forall rhs: Expr :: AssignIndex(sh, Assignment(s.receiver, rhs), f, st, fuel) == AssignIndex(sh, s, f, st, fuel)
  {
  }

  /** Assigning to an immutable variable fails before the offset or the value is looked at. */
  lemma ImmutableAssignmentFails(sh: Show, s: Stmt, st: State, fuel: nat, f: nat)
    requires WF(st) && s.Assignment? && s.receiver.Access?
    requires LookupVariable(st, s.receiver.name) == Ok(f) && !CellOf(st, f, s.receiver.name).mutable
    ensures ExecStmt(sh, s, st, fuel) == Err(RuntimeException("Cannot modify immutable environment variable!"))
    ensures forall rhs: Expr, off: Option<Expr> ::
      ExecStmt(sh, Assignment(Access(off, s.receiver.name), rhs), st, fuel) == ExecStmt(sh, s, st, fuel)
  {
  }

  // ---------------------------------------------------------------- calls

  predicate Distinct(xs: seq<string>) { forall j, k :: 0 <= j < k < |xs| ==> xs[j] != xs[k] }

  /**
   * The parameter loop binds parameter `j` to a mutable cell holding argument `j`, in
   * the current scope, for every `j` from `i`, and defines nothing else.
   */
  lemma {:induction false} BindParamsBinds(params: seq<string>, vals: seq<Value>, i: nat, st: State)
    requires WF(st) && AllBelow(vals, |st.lists|) && i <= |params| <= |vals| && Distinct(params)
    requires st.scope.Some? && forall j :: i <= j < |params| ==> params[j] !in st.frames[st.scope.value].variables
    ensures var r := BindParams(params, vals, i, st);
      && r.Ok?
      && (forall k :: 0 <= k < |st.frames| && k != st.scope.value ==> r.value.frames[k] == st.frames[k])
      && r.value.frames[st.scope.value].parent == st.frames[st.scope.value].parent
      && r.value.frames[st.scope.value].functions == st.frames[st.scope.value].functions
      && r.value.frames[st.scope.value].variables.Keys
           == st.frames[st.scope.value].variables.Keys + (set j | i <= j < |params| :: params[j])
      && (forall x :: x in st.frames[st.scope.value].variables ==>
            r.value.frames[st.scope.value].variables[x] == st.frames[st.scope.value].variables[x])
      && (forall j :: i <= j < |params| ==> r.value.frames[st.scope.value].variables[params[j]] == Variable(true, vals[j]))
    decreases |params| - i
  {
    var s := st.scope.value;
    if i < |params| {
      assert vals[i] in vals;
      var next := DefineVariable(st, params[i], true, vals[i]).value;
      assert next.frames[s].variables == st.frames[s].variables[params[i] := Variable(true, vals[i])];
      assert forall k :: 0 <= k < |st.frames| && k != s ==> next.frames[k] == st.frames[k];
      BindParamsBinds(params, vals, i + 1, next);
      var r := BindParams(params, vals, i + 1, next).value;
      assert BindParams(params, vals, i, st) == Ok(r);
      assert (set j | i <= j < |params| :: params[j]) == {params[i]} + set j | i + 1 <= j < |params| :: params[j];
    }
  }

  /**
   * A call to a closure binds its parameters positionally in a fresh child of the
   * scope the closure was defined in; that scope holds the parameters and nothing else.
   */
  lemma CallBindsInFreshScope(f: Callable, vals: seq<Value>, st: State)
    requires WF(st) && f.Closure? && CallableIn(f, |st.frames|) && AllBelow(vals, |st.lists|)
    requires Distinct(f.params) && |vals| == |f.params|
    ensures var r := BindParams(f.params, vals, 0, Enter(st, f.scope));
      && r.Ok? && r.value.scope == Some(|st.frames|) && r.value.frames[..|st.frames|] == st.frames
      && r.value.frames[|st.frames|].parent == f.scope
      && r.value.frames[|st.frames|].functions == map[]
      && r.value.frames[|st.frames|].variables.Keys == (set j | 0 <= j < |f.params| :: f.params[j])
      && (forall j :: 0 <= j < |f.params| ==> r.value.frames[|st.frames|].variables[f.params[j]] == Variable(true, vals[j]))
  {
    var callee := Enter(st, f.scope);
    BindParamsBinds(f.params, vals, 0, callee);
    var r := BindParams(f.params, vals, 0, callee).value;
    assert forall k :: 0 <= k < |st.frames| ==> r.frames[k] == st.frames[k];
  }

  /**
   * A call returns the value of the first `RETURN` the body executes, or NIL when the
   * body completes, and the caller's scope is current again afterwards.
   */
  lemma CallResult(sh: Show, f: Callable, vals: seq<Value>, st: State, fuel: nat, bound: State, ex: Ex)
    requires WF(st) && f.Closure? && CallableIn(f, |st.frames|) && AllBelow(vals, |st.lists|) && fuel > 0
    requires BindParams(f.params, vals, 0, Enter(st, f.scope)) == Ok(bound)
    requires ExecBlock(sh, f.body, 0, bound, fuel - 1) == Ok(ex)
    ensures Invoke(sh, f, vals, st, fuel) ==
      Ok(Ev(if ex.outcome.Returned? then ex.outcome.value else Nil, ex.st.(scope := st.scope)))
  {
  }

  // ---------------------------------------------------------------- switch

  /** An expression that evaluates in `st` to a `Comparable` value without changing the state. */
  ghost predicate PureComparable(sh: Show, e: Expr, st: State, fuel: nat)
    requires WF(st)
  {
    var k := Eval(sh, e, st, fuel);
    k.Ok? && k.value.st == st && IsComparable(k.value.value)
  }

  /** A case the scan passes over for the condition value `cv`: no value, or a pure value other than `cv`. */
  ghost predicate Misses(sh: Show, c: Case, st: State, fuel: nat, cv: Value)
    requires WF(st)
  {
    c.value.None? || (PureComparable(sh, c.value.value, st, fuel) && Eval(sh, c.value.value, st, fuel).value.value != cv)
  }

  /** A valued case whose value evaluates, without changing the state, to one `equals` to `cv`. */
  ghost predicate Matches(sh: Show, c: Case, st: State, fuel: nat, cv: Value)
    requires WF(st)
  {
    c.value.Some? && Eval(sh, c.value.value, st, fuel) == Ok(Ev(cv, st))
  }

  /**
   * When the condition and the case values evaluate without changing the state, the
   * first valued case equal to the condition runs its body, in the state the scan
   * started from, and no other case runs.
   */
  lemma {:induction false} SwitchRunsFirstMatch(sh: Show, s: Stmt, i: nat, k: nat, st: State, fuel: nat, cv: Value)
    requires WF(st) && s.Switch? && i <= k < |s.cases|
    requires Eval(sh, s.cond, st, fuel) == Ok(Ev(cv, st)) && IsComparable(cv)
    requires forall j :: i <= j < k ==> Misses(sh, s.cases[j], st, fuel, cv)
    requires Matches(sh, s.cases[k], st, fuel, cv)
    ensures SwitchScan(sh, s, i, st, fuel) == ExecBlock(sh, s.cases[k].body, 0, st, fuel)
    decreases k - i
  {
    if i < k {
      assert Misses(sh, s.cases[i], st, fuel, cv);
      SwitchRunsFirstMatch(sh, s, i + 1, k, st, fuel, cv);
    }
  }

  /**
   * When the condition and the case values evaluate without changing the state and no
   * valued case matches, the last case's body runs.
   */
  lemma {:induction false} SwitchRunsLastOtherwise(sh: Show, s: Stmt, i: nat, st: State, fuel: nat, cv: Value)
    requires WF(st) && s.Switch? && i <= |s.cases|
    requires Eval(sh, s.cond, st, fuel) == Ok(Ev(cv, st)) && IsComparable(cv)
    requires forall j :: i <= j < |s.cases| ==> Misses(sh, s.cases[j], st, fuel, cv)
    ensures SwitchScan(sh, s, i, st, fuel) ==
      if |s.cases| == 0 then Err(IndexOutOfBounds(-1))
      else ExecBlock(sh, s.cases[|s.cases| - 1].body, 0, st, fuel)
    decreases |s.cases| - i
  {
    if i < |s.cases| {
      assert Misses(sh, s.cases[i], st, fuel, cv);
      SwitchRunsLastOtherwise(sh, s, i + 1, st, fuel, cv);
    }
  }

  /**
   * A switch whose condition and case values evaluate without changing the state and
   * whose case bodies are empty ends in the scope it pushed, which is not the one it
   * started in.
   */
  lemma SwitchNeverPops(sh: Show, s: Stmt, st: State, fuel: nat, cv: Value)
    requires WF(st) && s.Switch? && |s.cases| > 0
    requires Eval(sh, s.cond, NewScope(st), fuel) == Ok(Ev(cv, NewScope(st))) && IsComparable(cv)
    requires forall j :: 0 <= j < |s.cases| ==>
      s.cases[j].body == [] && (s.cases[j].value.None? || PureComparable(sh, s.cases[j].value.value, NewScope(st), fuel))
    ensures ExecStmt(sh, s, st, fuel) == Ok(Ex(Normal, NewScope(st)))
    ensures NewScope(st).scope != st.scope
  {
    EmptyCasesKeepState(sh, s, 0, NewScope(st), fuel, cv);
  }

  lemma {:induction false} EmptyCasesKeepState(sh: Show, s: Stmt, i: nat, st: State, fuel: nat, cv: Value)
    requires WF(st) && s.Switch? && 0 < |s.cases| && i <= |s.cases|
    requires Eval(sh, s.cond, st, fuel) == Ok(Ev(cv, st)) && IsComparable(cv)
    requires forall j :: 0 <= j < |s.cases| ==>
      s.cases[j].body == [] && (s.cases[j].value.None? || PureComparable(sh, s.cases[j].value.value, st, fuel))
    ensures SwitchScan(sh, s, i, st, fuel) == Ok(Ex(Normal, st))
    decreases |s.cases| - i
  {
    if i < |s.cases| {
      assert s.cases[i].body == [];
      assert s.cases[i].value.None? || PureComparable(sh, s.cases[i].value.value, st, fuel);
      EmptyCasesKeepState(sh, s, i + 1, st, fuel, cv);
    } else {
      assert s.cases[|s.cases| - 1].body == [];
    }
  }

  // ---------------------------------------------------------------- if and while

  /**
   * An `IF` pushes a scope before its condition: the condition is evaluated in a new
   * child of the current scope, must be a Boolean, and selects the branch, which runs
   * in the state the condition left; unless the branch returned, one scope is popped
   * afterwards.
   */
  lemma IfPushesThenPops(sh: Show, s: Stmt, st: State, fuel: nat, c: Ev, ex: Ex)
    requires WF(st) && s.If? && Eval(sh, s.cond, NewScope(st), fuel) == Ok(c)
    requires c.value.Bool? ==> ExecBlock(sh, if c.value.b then s.thenBody else s.elseBody, 0, c.st, fuel) == Ok(ex)
    ensures !c.value.Bool? ==> ExecStmt(sh, s, st, fuel) == Err(WrongType(BooleanClass, ClassOf(c.value)))
    ensures c.value.Bool? && ex.outcome.Returned? ==> ExecStmt(sh, s, st, fuel) == Ok(ex)
    ensures c.value.Bool? && ex.outcome.Normal? ==>
      ExecStmt(sh, s, st, fuel) == (if ex.st.scope.None? then Err(NullPointer)
                                    else Ok(Ex(Normal, ex.st.(scope := ex.st.frames[ex.st.scope.value].parent))))
  {
    assert ExecStmt(sh, s, st, fuel) == ExecIf(sh, s, st, fuel);
    if c.value.Bool? {
      var branch := if c.value.b then s.thenBody else s.elseBody;
      assert ExecIf(sh, s, st, fuel) == ExecBranch(sh, branch, c.st, fuel);
    }
  }

  /**
   * An `IF` whose taken branch is empty restores the scope it started in, and the frame
   * it pushed is left behind.
   */
  lemma IfRestoresScope(sh: Show, b: bool, st: State, fuel: nat)
    requires WF(st)
    ensures ExecStmt(sh, If(Literal(LBool(b)), [], []), st, fuel) == Ok(Ex(Normal, NewScope(st).(scope := st.scope)))
  {
    var inner := NewScope(st);
    assert Eval(sh, Literal(LBool(b)), inner, fuel) == Ok(Ev(Bool(b), inner));
    assert ExecBlock(sh, [], 0, inner, fuel) == Ok(Ex(Normal, inner));
    IfPushesThenPops(sh, If(Literal(LBool(b)), [], []), st, fuel, Ev(Bool(b), inner), Ex(Normal, inner));
  }

  /** A `WHILE` whose condition is false pops one scope: the parent of the current one becomes current. */
  lemma WhileFalsePops(sh: Show, s: Stmt, st: State, fuel: nat, c: Ev)
    requires WF(st) && s.While? && Eval(sh, s.cond, st, fuel) == Ok(c) && c.value == Bool(false)
    ensures c.st.scope.None? ==> ExecStmt(sh, s, st, fuel) == Err(NullPointer)
    ensures c.st.scope.Some? ==>
      ExecStmt(sh, s, st, fuel) == Ok(Ex(Normal, c.st.(scope := c.st.frames[c.st.scope.value].parent)))
  {
  }

  /**
   * A `WHILE` whose condition is true runs its body in a new child of the current
   * scope, and then, unless the body returned, starts over from the state the body
   * left, with one iteration less of `fuel`.
   */
  lemma WhileIterates(sh: Show, s: Stmt, st: State, fuel: nat, c: Ev, ex: Ex)
    requires WF(st) && s.While? && Eval(sh, s.cond, st, fuel) == Ok(c) && c.value == Bool(true)
    requires ExecBlock(sh, s.body, 0, NewScope(c.st), fuel) == Ok(ex)
    ensures ex.outcome.Returned? ==> ExecStmt(sh, s, st, fuel) == Ok(ex)
    ensures ex.outcome.Normal? && fuel == 0 ==> ExecStmt(sh, s, st, fuel) == Err(OutOfFuel)
    ensures ex.outcome.Normal? && fuel > 0 ==> ExecStmt(sh, s, st, fuel) == ExecWhile(sh, s, ex.st, fuel - 1)
  {
  }

  /**
   * `WHILE FALSE DO END` in the interpreter's own scope pops it: the constructor's
   * `parent` becomes current, and when that was `null`, every variable lookup fails.
   */
  lemma WhileFalseLosesGlobalScope(sh: Show, parent: State, fuel: nat, name: string)
    requires WF(parent)
    ensures var r := ExecStmt(sh, While(Literal(LBool(false)), []), Initial(parent), fuel);
      r.Ok? && r.value.st.scope == parent.scope
      && (parent.scope.None? ==> LookupVariable(r.value.st, name) == Err(NullPointer))
  {
    var st := Initial(parent);
    WhileFalsePops(sh, While(Literal(LBool(false)), []), st, fuel, Ev(Bool(false), st));
  }

  // ---------------------------------------------------------------- globals

  /** An immutable global without a value is an error; a mutable one without a value holds NIL. */
  lemma GlobalDefaults(sh: Show, name: string, typeName: Option<string>, st: State, fuel: nat)
    requires WF(st)
    ensures DefineGlobal(sh, Global(name, typeName, false, None), st, fuel)
         == Err(RuntimeException("Value must be declared for immutable type"))
    ensures DefineGlobal(sh, Global(name, typeName, true, None), st, fuel) == DefineVariable(st, name, true, Nil)
  {
  }
}
