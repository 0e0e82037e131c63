/**
 * `Expression::evaluate` (src/context/expression.rs) and `Function::call`
 * (src/context/function.rs), also the `evaluate` and `Function::call` of
 * genv/src/999.rs, which are the same code.
 *
 * The specification threads the two tables of a `Scope` through pure functions:
 * evaluation reads the variables and may only register functions (a function
 * literal registers itself), so `Eval` returns the outcome and the new function
 * table. The methods below run on a `Scope` object and are proved equal to it.
 *
 * Rust's own failures are explicit outcomes: an `i64` overflow or a division by
 * zero panics (a debug build), and unbounded recursion, which overflows the
 * stack, is cut off by a `fuel` bound that each variable re-evaluation and each
 * call consumes.
 */
module Semantics {
  import opened Text
  import opened Ast
  import opened Scopes
  import opened Integers

  /** Why an evaluation did not produce a value: the `Err(String)` of the source,
      a Rust panic, or the fuel bound standing in for a stack overflow. */
  datatype Failure = Error(message: string) | Panic(message: string) | OutOfFuel

  datatype Outcome<+T> = Ok(value: T) | Fails(failure: Failure)

  type Vars = map<string, Expression>
  type Funs = map<string, Function>

  /** The outcome of an evaluation and the function table it leaves behind. */
  datatype Evaluated<+T> = Evaluated(outcome: Outcome<T>, funs: Funs)

  /** What `evaluate` can return: atoms other than variables, functions, and tuples of those. */
  predicate IsValue(e: Expression) {
    match e
    case Atom(a) => !a.Variable?
    case Function(_) => true
    case Tuple(items) => forall i :: 0 <= i < |items| ==> IsValue(items[i])
    case _ => false
  }

  // ---------------------------------------------------------------- integers

  /** An `i64` result, or the panic a debug build raises when it does not fit. */
  function Checked(v: int, message: string): (r: Outcome<Expression>)
    ensures r.Ok? <==> MinI64 <= v <= MaxI64
    ensures r.Ok? ==> r.value == Int(v)
  {
    if MinI64 <= v <= MaxI64 then Ok(Int(v)) else Fails(Panic(message))
  }

  /** The `Integer`/`Integer` arm of a binary operation. */
  function IntOp(op: BinaryOperator, a: Int64, b: Int64): (r: Outcome<Expression>)
    ensures r.Ok? ==> r.value.Atom? && r.value.atom.Integer?
    ensures op.Plus? ==> (r.Ok? <==> MinI64 <= a + b <= MaxI64) && (r.Ok? ==> r.value == Int(a + b))
    ensures op.Minus? ==> (r.Ok? <==> MinI64 <= a - b <= MaxI64) && (r.Ok? ==> r.value == Int(a - b))
    ensures op.Times? ==> (r.Ok? <==> MinI64 <= a * b <= MaxI64) && (r.Ok? ==> r.value == Int(a * b))
    ensures op.Divide? && r.Ok? ==> b != 0 && r.value.atom.int64 == TruncDiv(a, b)
    ensures op.Divide? && b == 0 ==> r == Fails(Panic("attempt to divide by zero"))
    ensures op.Divide? && b != 0 ==> (r.Ok? <==> !(a == MinI64 && b == -1))
    ensures op.Equal? || op.NotEqual? ==> r == Fails(Error("Unsupported binary operation"))
    ensures r.Fails? && (op.Plus? || op.Minus? || op.Times?) ==> r.failure.Panic?
  {
    match op
    case Plus => Checked(a + b, "attempt to add with overflow")
    case Minus => Checked(a - b, "attempt to subtract with overflow")
    case Times => Checked(a * b, "attempt to multiply with overflow")
    case Divide =>
      if b == 0 then Fails(Panic("attempt to divide by zero"))
      else
        QuotientFits(a, b);
        Checked(TruncDiv(a, b), "attempt to divide with overflow")
    case _ => Fails(Error("Unsupported binary operation"))
  }

  /** The operation on two evaluated operands: only `Integer`/`Integer` and
      `Double`/`Double`, and only the four arithmetic operators. */
  function Arith(op: BinaryOperator, l: Expression, r: Expression): (res: Outcome<Expression>)
    ensures res.Ok? ==> res.value.Atom? && (res.value.atom.Integer? || res.value.atom.Double?)
    ensures res.Ok? ==> l.Atom? && r.Atom? && !op.Equal? && !op.NotEqual?
    ensures res.Ok? ==>
      (l.atom.Integer? && r.atom.Integer? && res.value.atom.Integer?) ||
      (l.atom.Double? && r.atom.Double? && res.value.atom.Double?)
    ensures l.Atom? && l.atom.Integer? && r.Atom? && r.atom.Integer? ==> res == IntOp(op, l.atom.int64, r.atom.int64)
    ensures (op.Equal? || op.NotEqual?) && l.Atom? && r.Atom? && l.atom.Double? && r.atom.Double? ==>
      res == Fails(Error("Unsupported binary operation"))
    ensures !(l.Atom? && r.Atom? && ((l.atom.Integer? && r.atom.Integer?) || (l.atom.Double? && r.atom.Double?))) ==>
      res == Fails(Error("Type error in binary operation"))
  {
    if l.Atom? && l.atom.Integer? && r.Atom? && r.atom.Integer? then IntOp(op, l.atom.int64, r.atom.int64)
    else if l.Atom? && l.atom.Double? && r.Atom? && r.atom.Double? then
      if op.Equal? || op.NotEqual? then Fails(Error("Unsupported binary operation"))
      else Ok(Atom(Double(FloatArith(op, l.atom.float, r.atom.float))))
    else Fails(Error("Type error in binary operation"))
  }

  // ---------------------------------------------------------------- evaluation

  /** `Expression::evaluate` against the tables `vars` and `funs`. */
  function Eval(e: Expression, vars: Vars, funs: Funs, fuel: nat): (r: Evaluated<Expression>)
    decreases fuel, 0, ExprSize(e), 0
    ensures r.outcome.Ok? ==> IsValue(r.outcome.value)
    ensures funs.Keys <= r.funs.Keys
    ensures e.Tuple? && r.outcome.Ok? ==> r.outcome.value.Tuple? && |r.outcome.value.items| == |e.items|
    ensures e.Atom? && e.atom.Variable? && e.atom.name !in vars ==>
      r == Evaluated(Fails(Error("Undefined variable: " + e.atom.name)), funs)
    ensures e.MethodCall? ==> r == Evaluated(Fails(Error("Unsupported expression type")), funs)
  {
    match e
    case Atom(Variable(name)) =>
      if name !in vars then Evaluated(Fails(Error("Undefined variable: " + name)), funs)
      else if fuel == 0 then Evaluated(Fails(OutOfFuel), funs)
      else Eval(vars[name], vars, funs, fuel - 1)
    case Atom(a) => Evaluated(Ok(Atom(a)), funs)
    case BinaryOperation(op, left, right) =>
      var l := Eval(left, vars, funs, fuel);
      if l.outcome.Fails? then l
      else
        var r := Eval(right, vars, l.funs, fuel);
        if r.outcome.Fails? then r
        else Evaluated(Arith(op, l.outcome.value, r.outcome.value), r.funs)
    case Function(f) => Evaluated(Ok(Function(f)), funs[f.name := f])
    case Tuple(items) =>
      var r := EvalSeqFrom(items, 0, [], vars, funs, fuel);
      (match r.outcome
       case Ok(vs) => Evaluated(Ok(Tuple(vs)), r.funs)
       case Fails(why) => Evaluated(Fails(why), r.funs))
    case FunctionCall(name, args) =>
      if name !in funs then Evaluated(Fails(Error("Function '" + name + "' not found")), funs)
      else
        var a := EvalSeqFrom(args, 0, [], vars, funs, fuel);
        (match a.outcome
         case Fails(why) => Evaluated(Fails(why), a.funs)
         case Ok(vs) =>
           if fuel == 0 then Evaluated(Fails(OutOfFuel), a.funs)
           else Evaluated(CallFn(funs[name], vs, vars, fuel - 1), a.funs))
    case MethodCall(_, _, _) => Evaluated(Fails(Error("Unsupported expression type")), funs)
  }

  /** `iter().map(evaluate).collect()` from element `i` on, with the values of the
      elements before `i` in `acc`: in order, stopping at the first failure. */
  function EvalSeqFrom(es: seq<Expression>, i: nat, acc: seq<Expression>, vars: Vars, funs: Funs, fuel: nat)
    : (r: Evaluated<seq<Expression>>)
    requires i <= |es|
    decreases fuel, 0, ListSize(es[i..]), 1
    ensures funs.Keys <= r.funs.Keys
    ensures r.outcome.Ok? ==> |r.outcome.value| == |acc| + |es| - i && r.outcome.value[..|acc|] == acc
    ensures r.outcome.Ok? ==> forall k :: |acc| <= k < |r.outcome.value| ==> IsValue(r.outcome.value[k])
  {
    if i == |es| then Evaluated(Ok(acc), funs)
    else
      assert es[i..][0] == es[i] && es[i..][1..] == es[i + 1..];
      var h := Eval(es[i], vars, funs, fuel);
      match h.outcome
      case Fails(why) => Evaluated(Fails(why), h.funs)
      case Ok(v) =>
        var r := EvalSeqFrom(es, i + 1, acc + [v], vars, h.funs, fuel);
        assert r.outcome.Ok? ==> r.outcome.value[..|acc|] == (acc + [v])[..|acc|];
        r
  }

  /** `Function::call`: the arity check, then a fresh scope with a copy of the
      caller's variables and an empty function table. */
  function CallFn(f: Function, args: seq<Expression>, callerVars: Vars, fuel: nat): (r: Outcome<Expression>)
    decreases fuel, 2, 0, 0
    ensures r.Ok? ==> IsValue(r.value)
    ensures |args| != |f.parameters| ==> r == Fails(Error("Argument count mismatch"))
  {
    if |args| != |f.parameters| then Fails(Error("Argument count mismatch"))
    else BindFrom(f, args, 0, callerVars, map[], fuel)
  }

  /** The loop binding parameter `i` onward, each to its argument evaluated again
      in the callee scope. */
  function BindFrom(f: Function, args: seq<Expression>, i: nat, vars: Vars, funs: Funs, fuel: nat)
    : (r: Outcome<Expression>)
    requires |args| == |f.parameters| && i <= |args|
    decreases fuel, 1, |args| - i + 1, 0
    ensures r.Ok? ==> IsValue(r.value)
  {
    if i == |args| then RunDecls(f, 0, vars, funs, fuel)
    else
      var a := Eval(args[i], vars, funs, fuel);
      match a.outcome
      case Fails(why) => Fails(why)
      case Ok(v) => BindFrom(f, args, i + 1, vars[f.parameters[i].name := v], a.funs, fuel)
  }

  /** The loop over the body from statement `i` on: only variable declarations run;
      then the return expression is evaluated in the final callee scope. */
  function RunDecls(f: Function, i: nat, vars: Vars, funs: Funs, fuel: nat): (r: Outcome<Expression>)
    requires i <= |f.body.statements|
    decreases fuel, 1, 0, |f.body.statements| - i
    ensures r.Ok? ==> IsValue(r.value)
  {
    if i == |f.body.statements| then Eval(f.body.returnExpr, vars, funs, fuel).outcome
    else
      match f.body.statements[i]
      case VariableDeclaration(name, e) =>
        (var h := Eval(e, vars, funs, fuel);
         match h.outcome
         case Fails(why) => Fails(why)
         case Ok(v) => RunDecls(f, i + 1, vars[name := v], h.funs, fuel))
      case _ => RunDecls(f, i + 1, vars, funs, fuel)
  }
}
