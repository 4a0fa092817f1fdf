/**
 * Runtime values of the interpreter and the operator semantics applied once both
 * operands are values (Interpreter.java:239-331): `requireType`, comparisons, exact
 * integer and decimal arithmetic, division, and the iterated `^`.
 */
module Values {
  import opened Common
  import opened Ast
  import Literals
  import LiteralProps

  /**
   * A runtime value. A list is a reference: `List(addr)` names a mutable element
   * sequence in the interpreter's list store, so two values may share one list.
   */
  datatype Value =
    | Nil
    | Bool(b: bool)
    | Int(i: int)
    | Dec(d: BigDecimal)
    | Char(c: char)
    | Str(s: string)
    | List(addr: nat)

  /** The Java class of a value, as named in `requireType`'s messages, plus `Comparable`. */
  datatype JavaClass =
    | BooleanClass | IntegerClass | DecimalClass | CharacterClass | StringClass | ListClass
    | NilClass | ComparableClass

  /** The exceptions the interpreter can throw. */
  datatype RuntimeError =
    | RuntimeException(message: string)                // an explicit `throw new RuntimeException(..)`
    | WrongType(expected: JavaClass, received: JavaClass) // `requireType`
    | ClassCast(from: JavaClass, to: JavaClass)         // `compareTo` across classes
    | UndefinedVariable(name: string)                   // `Scope.lookupVariable`
    | UndefinedFunction(name: string, arity: nat)       // `Scope.lookupFunction`
    | AlreadyDefined(name: string)                      // `Scope.define*` of a name already in the scope
    | NullPointer                                       // an operation on a `null` scope
    | IndexOutOfBounds(index: int)                      // `List.get` out of range
    | OutOfFuel                                         // the model's bound on calls and loop iterations

  function ClassOf(v: Value): JavaClass
  {
    match v
    case Nil => NilClass
    case Bool(_) => BooleanClass
    case Int(_) => IntegerClass
    case Dec(_) => DecimalClass
    case Char(_) => CharacterClass
    case Str(_) => StringClass
    case List(_) => ListClass
  }

  /** The value of a literal node: `null` is NIL, every other literal its own object. */
  function LiteralValue(lit: Literal): (v: Value)
    ensures v.List? == false
  {
    match lit
    case LNil => Nil
    case LBool(b) => Bool(b)
    case LInt(i) => Int(i)
    case LDec(d) => Dec(d)
    case LChar(c) => Char(c)
    case LStr(s) => Str(s)
  }

  // ---------------------------------------------------------------- requireType

  function RequireBool(v: Value): (r: Result<bool, RuntimeError>)
    ensures r.Ok? <==> v.Bool?
    ensures r.Ok? ==> v == Bool(r.value)
    ensures r.Err? ==> r.error == WrongType(BooleanClass, ClassOf(v))
  {
    if v.Bool? then Ok(v.b) else Err(WrongType(BooleanClass, ClassOf(v)))
  }

  function RequireInt(v: Value): (r: Result<int, RuntimeError>)
    ensures r.Ok? <==> v.Int?
    ensures r.Ok? ==> v == Int(r.value)
    ensures r.Err? ==> r.error == WrongType(IntegerClass, ClassOf(v))
  {
    if v.Int? then Ok(v.i) else Err(WrongType(IntegerClass, ClassOf(v)))
  }

  function RequireList(v: Value): (r: Result<nat, RuntimeError>)
    ensures r.Ok? <==> v.List?
    ensures r.Ok? ==> v == List(r.value)
    ensures r.Err? ==> r.error == WrongType(ListClass, ClassOf(v))
  {
    if v.List? then Ok(v.addr) else Err(WrongType(ListClass, ClassOf(v)))
  }

  /** The Java classes of runtime values that implement `Comparable`. */
  predicate IsComparable(v: Value)
  {
    v.Bool? || v.Int? || v.Dec? || v.Char? || v.Str?
  }

  function RequireComparable(v: Value): (r: Result<Value, RuntimeError>)
    ensures r.Ok? <==> IsComparable(v)
    ensures r.Ok? ==> r.value == v
    ensures r.Err? ==> r.error == WrongType(ComparableClass, ClassOf(v))
  {
    if IsComparable(v) then Ok(v) else Err(WrongType(ComparableClass, ClassOf(v)))
  }

  // ---------------------------------------------------------------- text

  /**
   * How `toString` renders a NIL, a decimal and a list. The Java formatting of these
   * (the NIL object's text, `BigDecimal.toString`, `AbstractCollection.toString`) is
   * not modelled; the interpreter is parameterised by it.
   */
  datatype Show = Show(nil: string, decimal: BigDecimal -> string, list: seq<Value> -> string)

  /** `toString()` of a value; a list is rendered from its current elements. */
  function Text(sh: Show, v: Value, lists: seq<seq<Value>>): (t: string)
    requires v.List? ==> v.addr < |lists|
    ensures v.Int? ==> Literals.IntegerValue(t) == Ok(v.i)
    ensures v.Str? ==> t == v.s
  {
    match v
    case Nil => sh.nil
    case Bool(b) => if b then "true" else "false"
    case Int(i) => LiteralProps.IntegerValueOfText(i); IntToString(i)
    case Dec(d) => sh.decimal(d)
    case Char(c) => [c]
    case Str(s) => s
    case List(a) => sh.list(lists[a])
  }

  // ---------------------------------------------------------------- numbers

  function Pow10(n: nat): (p: int)
    ensures p >= 1
  {
    if n == 0 then 1 else 10 * Pow10(n - 1)
  }

  function Max(a: nat, b: nat): nat { if a < b then b else a }

  /** `unscaled * 10^(s - scale)`: the decimal's value times 10^s, for s at least its scale. */
  function Scaled(d: BigDecimal, s: nat): int
    requires d.scale <= s
  {
    d.unscaled * Pow10(s - d.scale)
  }

  /** `BigDecimal.add`: exact, at the larger of the two scales. */
  function DecAdd(a: BigDecimal, b: BigDecimal): (r: BigDecimal)
    ensures r.scale == Max(a.scale, b.scale)
  {
    var s := Max(a.scale, b.scale);
    BigDecimal(Scaled(a, s) + Scaled(b, s), s)
  }

  /** `BigDecimal.subtract`: exact, at the larger of the two scales. */
  function DecSub(a: BigDecimal, b: BigDecimal): (r: BigDecimal)
    ensures r.scale == Max(a.scale, b.scale)
  {
    var s := Max(a.scale, b.scale);
    BigDecimal(Scaled(a, s) - Scaled(b, s), s)
  }

  /** `BigDecimal.multiply`: exact, at the sum of the two scales. */
  function DecMul(a: BigDecimal, b: BigDecimal): (r: BigDecimal)
    ensures r.scale == a.scale + b.scale
  {
    BigDecimal(a.unscaled * b.unscaled, a.scale + b.scale)
  }

  function Sign(x: int): (s: int)
    ensures s == -1 || s == 0 || s == 1
    ensures s < 0 <==> x < 0
    ensures s == 0 <==> x == 0
  {
    if x < 0 then -1 else if x == 0 then 0 else 1
  }

  /** `BigDecimal.compareTo`: compares the values, ignoring the scales. */
  function DecCompare(a: BigDecimal, b: BigDecimal): (c: int)
    ensures c == -1 || c == 0 || c == 1
    ensures c == 0 <==> Scaled(a, Max(a.scale, b.scale)) == Scaled(b, Max(a.scale, b.scale))
  {
    var s := Max(a.scale, b.scale);
    Sign(Scaled(a, s) - Scaled(b, s))
  }

  function Abs(x: int): nat { if x < 0 then -x else x }

  /** `BigInteger.divide`: the quotient truncated toward zero. */
  function TruncDiv(a: int, b: int): (q: int)
    requires b != 0
    ensures Abs(q * b) <= Abs(a) && Abs(a - q * b) < Abs(b)
    ensures q * b == 0 || (q * b < 0 <==> a < 0)
  {
    var q0 := Abs(a) / Abs(b);
    var q := if (a < 0) == (b < 0) then q0 else -q0;
    TruncDivFacts(a, b, q0, q);
    q
  }

  lemma TruncDivFacts(a: int, b: int, q0: int, q: int)
    requires b != 0 && q0 == Abs(a) / Abs(b)
    requires q == if (a < 0) == (b < 0) then q0 else -q0
    ensures Abs(q * b) <= Abs(a) && Abs(a - q * b) < Abs(b)
    ensures q * b == 0 || (q * b < 0 <==> a < 0)
  {
    DivBounds(Abs(a), Abs(b));
    SignedProduct(a, b, q0, q);
  }

  lemma DivBounds(x: nat, y: nat)
    requires y > 0
    ensures 0 <= (x / y) * y <= x < (x / y) * y + y
  {
  }

  lemma SignedProduct(a: int, b: int, q0: int, q: int)
    requires b != 0 && q0 >= 0
    requires q == if (a < 0) == (b < 0) then q0 else -q0
    ensures q * b == if a < 0 then -(q0 * Abs(b)) else q0 * Abs(b)
  {
    if b < 0 {
      assert q0 * Abs(b) == -(q0 * b);
    }
  }

  /**
   * `n / d` rounded to the nearest integer, ties to the even neighbour
   * (`RoundingMode.HALF_EVEN`).
   */
  function RoundHalfEven(n: int, d: int): (q: int)
    requires d != 0
    ensures 2 * Abs(n - q * d) <= Abs(d)
    ensures 2 * Abs(n - q * d) == Abs(d) ==> q % 2 == 0
  {
    var n' := if d < 0 then -n else n;
    var q := RoundPositive(n', Abs(d));
    SignFlip(n, d, q);
    q
  }

  /** `RoundHalfEven` for a positive divisor: round the floor quotient up past the half. */
  function RoundPositive(n: int, d: int): (q: int)
    requires d > 0
    ensures 2 * Abs(n - q * d) <= d
    ensures 2 * Abs(n - q * d) == d ==> q % 2 == 0
  {
    var f := n / d;
    var rem := n % d;
    var q := if 2 * rem < d then f else if 2 * rem > d then f + 1 else if f % 2 == 0 then f else f + 1;
    RoundBound(n, d, f, rem, q);
    q
  }

  /** The nearest-neighbour bound and the tie rule for a positive divisor and its floor quotient. */
  lemma RoundBound(n: int, d: int, f: int, rem: int, q: int)
    requires d > 0 && n == f * d + rem && 0 <= rem < d
    requires q == if 2 * rem < d then f else if 2 * rem > d then f + 1 else if f % 2 == 0 then f else f + 1
    ensures 2 * Abs(n - q * d) <= d
    ensures 2 * Abs(n - q * d) == d ==> q % 2 == 0
  {
    RoundStep(n, d, f, rem, q);
  }

  /** The remainder left by rounding the floor quotient `f` down or up. */
  lemma RoundStep(n: int, d: int, f: int, rem: int, q: int)
    requires d > 0 && n == f * d + rem && (q == f || q == f + 1)
    ensures n - q * d == (if q == f then rem else rem - d)
  {
    if q == f + 1 {
      assert q * d == f * d + d;
    }
  }

  lemma SignFlip(n: int, d: int, q: int)
    ensures n - q * d == -((-n) - q * (-d))
  {
    assert q * (-d) == -(q * d);
  }

  /**
   * `a.divide(b, RoundingMode.HALF_EVEN)`: the quotient at the scale of `a`, rounded
   * half-even. The value of `a / b` times 10^(scale a) is `a.unscaled * 10^(scale b) / b.unscaled`.
   */
  function DecDiv(a: BigDecimal, b: BigDecimal): (r: BigDecimal)
    requires b.unscaled != 0
    ensures r.scale == a.scale
    ensures 2 * Abs(a.unscaled * Pow10(b.scale) - r.unscaled * b.unscaled) <= Abs(b.unscaled)
  {
    BigDecimal(RoundHalfEven(a.unscaled * Pow10(b.scale), b.unscaled), a.scale)
  }

  /** `BigInteger.ONE` multiplied `n` times by `b`; a negative `n` leaves one. */
  function IntPow(b: int, n: int): int
  {
    if n <= 0 then 1 else Pow(b, n)
  }

  /** `BigDecimal.ONE` multiplied `n` times by `d`, exactly. */
  function DecPowNat(d: BigDecimal, n: nat): BigDecimal
  {
    if n == 0 then BigDecimal(1, 0) else DecMul(DecPowNat(d, n - 1), d)
  }

  /** The decimal `^`: a negative exponent leaves `ONE.divide(ONE, HALF_EVEN)`, which is one. */
  function DecPow(d: BigDecimal, n: int): BigDecimal
  {
    if n <= 0 then BigDecimal(1, 0) else DecPowNat(d, n)
  }

  // ---------------------------------------------------------------- comparisons

  /** `String.compareTo` reduced to its sign: lexicographic, a proper prefix first. */
  function StrCompare(a: string, b: string): (c: int)
    ensures c == -1 || c == 0 || c == 1
    ensures c == 0 <==> a == b
  {
    if a == [] && b == [] then 0
    else if a == [] then -1
    else if b == [] then 1
    else if a[0] != b[0] then Sign(a[0] as int - b[0] as int)
    else
      var c := StrCompare(a[1..], b[1..]);
      assert c == 0 ==> a == [a[0]] + a[1..] && b == [b[0]] + b[1..];
      c
  }

  /**
   * The sign of `l.compareTo(r)` for two comparable values. Values of two different
   * classes fail the cast inside `compareTo`.
   */
  function CompareValues(l: Value, r: Value): (c: Result<int, RuntimeError>)
    requires IsComparable(l) && IsComparable(r)
    ensures c.Ok? <==> ClassOf(l) == ClassOf(r)
    ensures c.Ok? ==> -1 <= c.value <= 1
  {
    if ClassOf(l) != ClassOf(r) then Err(ClassCast(ClassOf(r), ClassOf(l)))
    else
      match l
      case Bool(a) => Ok(if a == r.b then 0 else if a then 1 else -1)
      case Int(a) => Ok(Sign(a - r.i))
      case Dec(a) => Ok(DecCompare(a, r.d))
      case Char(a) => Ok(Sign(a as int - r.c as int))
      case Str(a) => Ok(StrCompare(a, r.s))
  }

  /** Whether comparison operator `op` holds of a `compareTo` sign. */
  function Holds(op: string, c: int): bool
  {
    if op == ">" then c > 0
    else if op == "<" then c < 0
    else if op == "==" then c == 0
    else c != 0
  }

  // ---------------------------------------------------------------- arithmetic

  predicate Addressed(v: Value, lists: seq<seq<Value>>) { v.List? ==> v.addr < |lists| }

  /** `+`: text concatenation when either side is a String, else a same-kind exact sum. */
  function Add(sh: Show, l: Value, r: Value, lists: seq<seq<Value>>): (v: Result<Value, RuntimeError>)
    requires Addressed(l, lists) && Addressed(r, lists)
    ensures v.Ok? <==> l.Str? || r.Str? || (l.Int? && r.Int?) || (l.Dec? && r.Dec?)
  {
    if l.Str? || r.Str? then Ok(Str(Text(sh, l, lists) + Text(sh, r, lists)))
    else if l.Int? then (if r.Int? then Ok(Int(l.i + r.i)) else Err(WrongType(IntegerClass, ClassOf(r))))
    else if l.Dec? then (if r.Dec? then Ok(Dec(DecAdd(l.d, r.d))) else Err(WrongType(DecimalClass, ClassOf(r))))
    else Err(RuntimeException("Invalid addition objects!"))
  }

  /** `-`: a same-kind exact difference of two Integers or two Decimals. */
  function Subtract(l: Value, r: Value): (v: Result<Value, RuntimeError>)
    ensures v.Ok? <==> (l.Int? && r.Int?) || (l.Dec? && r.Dec?)
  {
    if l.Int? then (if r.Int? then Ok(Int(l.i - r.i)) else Err(WrongType(IntegerClass, ClassOf(r))))
    else if l.Dec? then (if r.Dec? then Ok(Dec(DecSub(l.d, r.d))) else Err(WrongType(DecimalClass, ClassOf(r))))
    else Err(RuntimeException("Invalid subtraction objects!"))
  }

  /** `*`: a same-kind exact product of two Integers or two Decimals. */
  function Multiply(l: Value, r: Value): (v: Result<Value, RuntimeError>)
    ensures v.Ok? <==> (l.Int? && r.Int?) || (l.Dec? && r.Dec?)
  {
    if l.Int? then (if r.Int? then Ok(Int(l.i * r.i)) else Err(WrongType(IntegerClass, ClassOf(r))))
    else if l.Dec? then (if r.Dec? then Ok(Dec(DecMul(l.d, r.d))) else Err(WrongType(DecimalClass, ClassOf(r))))
    else Err(RuntimeException("Invalid multiplication objects!"))
  }

  /** `/`: a zero divisor is an error whatever the dividend; integers truncate, decimals round half-even. */
  function Divide(l: Value, r: Value): (v: Result<Value, RuntimeError>)
    ensures v.Ok? <==> (l.Int? && r.Int? && r.i != 0) || (l.Dec? && r.Dec? && r.d.unscaled != 0)
  {
    if l.Int? then
      if !r.Int? then Err(WrongType(IntegerClass, ClassOf(r)))
      else if r.i == 0 then Err(RuntimeException("Cannot divide by 0"))
      else Ok(Int(TruncDiv(l.i, r.i)))
    else if l.Dec? then
      if !r.Dec? then Err(WrongType(DecimalClass, ClassOf(r)))
      else if r.d.unscaled == 0 then Err(RuntimeException("Cannot divide by 0.0"))
      else Ok(Dec(DecDiv(l.d, r.d)))
    else Err(RuntimeException("Invalid division objects!"))
  }

  /** `^`: the exponent must be an Integer; the base an Integer or a Decimal. */
  function Power(l: Value, r: Value): (v: Result<Value, RuntimeError>)
    ensures v.Ok? <==> (l.Int? || l.Dec?) && r.Int?
  {
    if l.Int? then
      if !r.Int? then Err(WrongType(IntegerClass, ClassOf(r))) else Ok(Int(IntPow(l.i, r.i)))
    else if l.Dec? then
      if !r.Int? then Err(WrongType(IntegerClass, ClassOf(r))) else Ok(Dec(DecPow(l.d, r.i)))
    else Err(RuntimeException("Invalid division objects!"))
  }

  predicate IsArithmetic(op: string) { op in {"+", "-", "*", "/", "^"} }
  predicate IsComparison(op: string) { op in {">", "<", "==", "!="} }

  /** The arithmetic operators once both operands are values. */
  function Arith(sh: Show, op: string, l: Value, r: Value, lists: seq<seq<Value>>): (v: Result<Value, RuntimeError>)
    requires IsArithmetic(op) && Addressed(l, lists) && Addressed(r, lists)
    ensures v.Ok? ==> !v.value.List? && !v.value.Nil?
  {
    if op == "+" then Add(sh, l, r, lists)
    else if op == "-" then Subtract(l, r)
    else if op == "*" then Multiply(l, r)
    else if op == "/" then Divide(l, r)
    else Power(l, r)
  }
}
