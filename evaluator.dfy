/**
 * The imperative code of src/context/expression.rs and src/context/function.rs:
 * `evaluate` on a `Scope` object (its `Function` arm calls `set_function`) and
 * `Function::call`, which builds a local scope and fills it in two loops. Each
 * method is proved to compute what the specification functions of `Eval` say.
 */
module Evaluator {
  import opened Text
  import opened Ast
  import opened Scopes
  import opened Semantics

  /** `Expression::evaluate(&self, context)`: only the function table of the scope changes. */
  method Evaluate(e: Expression, scope: Scope, fuel: nat) returns (r: Outcome<Expression>)
    modifies scope
    decreases fuel, 0, ExprSize(e), 0
    ensures Evaluated(r, scope.functions) == Eval(e, old(scope.variables), old(scope.functions), fuel)
    ensures scope.variables == old(scope.variables)
  {
    match e
    case Atom(Variable(name)) =>
      var bound := scope.GetVariable(name);
      if bound.None? {
        r := Fails(Error("Undefined variable: " + name));
      } else if fuel == 0 {
        r := Fails(OutOfFuel);
      } else {
        r := Evaluate(bound.value, scope, fuel - 1);
      }
    case Atom(a) =>
      r := Ok(Atom(a));
    case BinaryOperation(op, left, right) =>
      var l := Evaluate(left, scope, fuel);
      if l.Fails? {
        return l;
      }
      var rv := Evaluate(right, scope, fuel);
      if rv.Fails? {
        return rv;
      }
      r := Arith(op, l.value, rv.value);
    case Function(f) =>
      scope.SetFunction(f.name, f);
      r := Ok(Function(f));
    case Tuple(items) =>
      var vs := EvaluateAll(items, scope, fuel);
      match vs {
        case Ok(values) => r := Ok(Tuple(values));
        case Fails(why) => r := Fails(why);
      }
    case FunctionCall(name, args) =>
      var f := scope.GetFunction(name);
      if f.None? {
        return Fails(Error("Function '" + name + "' not found"));
      }
      var vs := EvaluateAll(args, scope, fuel);
      if vs.Fails? {
        return Fails(vs.failure);
      }
      if fuel == 0 {
        return Fails(OutOfFuel);
      }
      r := Call(f.value, vs.value, scope, fuel - 1);
    case MethodCall(_, _, _) =>
      r := Fails(Error("Unsupported expression type"));
  }

  /** `iter().map(|e| e.evaluate(context)).collect()`: in order, stopping at the first error. */
  method EvaluateAll(es: seq<Expression>, scope: Scope, fuel: nat) returns (r: Outcome<seq<Expression>>)
    modifies scope
    decreases fuel, 0, ListSize(es), 1
    ensures Evaluated(r, scope.functions) == EvalSeqFrom(es, 0, [], old(scope.variables), old(scope.functions), fuel)
    ensures scope.variables == old(scope.variables)
  {
    var values := [];
    var i := 0;
    while i < |es|
      invariant i <= |es|
      invariant scope.variables == old(scope.variables)
      invariant EvalSeqFrom(es, i, values, scope.variables, scope.functions, fuel)
        == EvalSeqFrom(es, 0, [], old(scope.variables), old(scope.functions), fuel)
    {
      ListSizeSplit(es, i);
      var v := Evaluate(es[i], scope, fuel);
      if v.Fails? {
        return Fails(v.failure);
      }
      values := values + [v.value];
      i := i + 1;
    }
    r := Ok(values);
  }

  /** `Function::call(&self, args, context)`: the caller's scope is only read. */
  method Call(f: Function, args: seq<Expression>, caller: Scope, fuel: nat) returns (r: Outcome<Expression>)
    decreases fuel, 2, 0, 0
    ensures r == CallFn(f, args, caller.variables, fuel)
  {
    if |args| != |f.parameters| {
      return Fails(Error("Argument count mismatch"));
    }
    var local := new Scope();
    local.ExtendVariables(caller.variables);
    assert local.variables == caller.variables;
    var i := 0;
    while i < |args|
      invariant i <= |args|
      invariant BindFrom(f, args, i, local.variables, local.functions, fuel) == CallFn(f, args, caller.variables, fuel)
    {
      var v := Evaluate(args[i], local, fuel);
      if v.Fails? {
        return Fails(v.failure);
      }
      local.SetVariable(f.parameters[i].name, v.value);
      i := i + 1;
    }
    var j := 0;
    while j < |f.body.statements|
      invariant j <= |f.body.statements|
      invariant RunDecls(f, j, local.variables, local.functions, fuel) == CallFn(f, args, caller.variables, fuel)
    {
      match f.body.statements[j] {
        case VariableDeclaration(name, e) =>
          var v := Evaluate(e, local, fuel);
          if v.Fails? {
            return Fails(v.failure);
          }
          local.SetVariable(name, v.value);
        case _ =>
      }
      j := j + 1;
    }
    r := Evaluate(f.body.returnExpr, local, fuel);
  }
}
