/**
 * The evaluator of the `genv` calculator (genv/src/ast/engine.rs): `i32` values and
 * one variable table that assignments write into as they are evaluated.
 *
 * `i32` arithmetic that overflows, and division by zero, panic (a debug build);
 * the panic is an explicit outcome. The table at the moment of the panic is kept,
 * although a panicking Rust program does not go on using it.
 */
module GenvEngine {
  import opened Text
  import opened Integers
  import opened GenvParser

  type Vars = map<string, Int32>

  /** The value of an expression, or the message of the panic that stopped it. */
  datatype Value = Value(n: Int32) | Panic(message: string)

  /** A value and the variable table after computing it. */
  datatype Evaluated = Evaluated(value: Value, vars: Vars)

  /** An `i32` result, or the overflow panic. */
  function Checked32(v: int, message: string): (r: Value)
    ensures r.Value? <==> MinI32 <= v <= MaxI32
    ensures r.Value? ==> r.n == v
  {
    if MinI32 <= v <= MaxI32 then Value(v) else Panic(message)
  }

  /** `+ - * /` on `i32`, as a debug build runs them. */
  function Apply(op: BinOp, a: Int32, b: Int32): (r: Value)
    ensures op.Add? ==> (r.Value? <==> MinI32 <= a + b <= MaxI32) && (r.Value? ==> r.n == a + b)
    ensures op.Sub? ==> (r.Value? <==> MinI32 <= a - b <= MaxI32) && (r.Value? ==> r.n == a - b)
    ensures op.Mul? ==> (r.Value? <==> MinI32 <= a * b <= MaxI32) && (r.Value? ==> r.n == a * b)
    ensures op.Div? ==> (r == Panic("attempt to divide by zero") <==> b == 0)
    ensures op.Div? && b != 0 ==> (r.Value? <==> !(a == MinI32 && b == -1))
    ensures op.Div? && a == MinI32 && b == -1 ==> r == Panic("attempt to divide with overflow")
    ensures op.Div? && r.Value? ==> b != 0 && r.n == TruncDiv(a, b)
  {
    match op
    case Add => Checked32(a + b, "attempt to add with overflow")
    case Sub => Checked32(a - b, "attempt to subtract with overflow")
    case Mul => Checked32(a * b, "attempt to multiply with overflow")
    case Div =>
      if b == 0 then Panic("attempt to divide by zero")
      else QuotientFits32(a, b); Checked32(TruncDiv(a, b), "attempt to divide with overflow")
  }

  /** The names an expression assigns. */
  function Assigned(e: Expr): set<string> {
    match e
    case Number(_) => {}
    case Variable(_) => {}
    case BinaryOp(l, _, r) => Assigned(l) + Assigned(r)
    case Assignment(name, v) => {name} + Assigned(v)
  }

  /** `eval_expr` on the table `vars`. */
  function Eval(e: Expr, vars: Vars): (r: Evaluated)
    ensures vars.Keys <= r.vars.Keys <= vars.Keys + Assigned(e)
    ensures forall k :: k in vars && k !in Assigned(e) ==> r.vars[k] == vars[k]
    ensures e.Assignment? && r.value.Value? ==> e.name in r.vars && r.vars[e.name] == r.value.n
    ensures e.Number? ==> r == Evaluated(Value(e.n), vars)
    ensures e.Variable? ==> r.vars == vars && r.value == Value(if e.name in vars then vars[e.name] else 0)
    ensures e.Assignment? ==> r.value == Eval(e.value, vars).value
    ensures e.Assignment? && r.value.Value? ==> r.vars == Eval(e.value, vars).vars[e.name := r.value.n]
  {
    match e
    case Number(n) => Evaluated(Value(n), vars)
    case Variable(name) => Evaluated(Value(if name in vars then vars[name] else 0), vars)
    case BinaryOp(l, op, r) =>
      var a := Eval(l, vars);
      if a.value.Panic? then a
      else
        var b := Eval(r, a.vars);
        if b.value.Panic? then b
        else Evaluated(Apply(op, a.value.n, b.value.n), b.vars)
    case Assignment(name, v) =>
      var a := Eval(v, vars);
      if a.value.Panic? then a
      else Evaluated(a.value, a.vars[name := a.value.n])
  }

  /** The outcome of `evaluate`: the final table, or a panic and the table it left. */
  datatype Run = Run(panic: Option<string>, vars: Vars)

  /** `evaluate`'s `for` loop from expression `i` on. */
  function EvaluateFrom(exprs: seq<Expr>, i: nat, vars: Vars): (r: Run)
    requires i <= |exprs|
    decreases |exprs| - i
    ensures vars.Keys <= r.vars.Keys
  {
    if i == |exprs| then Run(None, vars)
    else
      var a := Eval(exprs[i], vars);
      if a.value.Panic? then Run(Some(a.value.message), a.vars)
      else EvaluateFrom(exprs, i + 1, a.vars)
  }

  class Engine {
    var variables: Vars

    /** `Engine::new`: no variables. */
    constructor ()
      ensures variables == map[]
    {
      variables := map[];
    }

    /** `eval_expr`: the value, with every assignment stored as it is evaluated. */
    method EvalExpr(e: Expr) returns (r: Value)
      modifies this
      ensures Evaluated(r, variables) == Eval(e, old(variables))
    {
      match e {
        case Number(n) =>
          r := Value(n);
        case Variable(name) =>
          r := Value(if name in variables then variables[name] else 0);
        case BinaryOp(lhs, op, rhs) =>
          var a := EvalExpr(lhs);
          if a.Panic? {
            return a;
          }
          var b := EvalExpr(rhs);
          if b.Panic? {
            return b;
          }
          r := Apply(op, a.n, b.n);
        case Assignment(name, value) =>
          r := EvalExpr(value);
          if r.Panic? {
            return;
          }
          variables := variables[name := r.n];
      }
    }

    /** `evaluate`: the expressions in order; a panic ends it. */
    method Evaluate(exprs: seq<Expr>) returns (panic: Option<string>)
      modifies this
      ensures Run(panic, variables) == EvaluateFrom(exprs, 0, old(variables))
    {
      for i := 0 to |exprs|
        invariant EvaluateFrom(exprs, i, variables) == EvaluateFrom(exprs, 0, old(variables))
      {
        var v := EvalExpr(exprs[i]);
        if v.Panic? {
          return Some(v.message);
        }
      }
      panic := None;
    }

    /** `get_variable`. */
    method GetVariable(name: string) returns (r: Option<Int32>)
      ensures r.Some? <==> name in variables
      ensures r.Some? ==> r.value == variables[name]
    {
      if name in variables {
        r := Some(variables[name]);
      } else {
        r := None;
      }
    }
  }
}
