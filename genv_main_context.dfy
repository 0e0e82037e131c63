/**
 * The `Context` of genv/src/main.rs, three `RefCell<HashMap>` tables updated in
 * place, and the code that runs on it: `evaluate`, `Function::call` (which works on
 * a clone) and `Statement::execute`. Each method is proved to compute what the
 * functions of module GenvMain say about a snapshot of the tables.
 */
module GenvMainContext {
  import opened Text
  import opened Ast
  import opened Semantics
  import opened GenvMain
  import Runner

  class Context {
    var variables: Vars
    var functions: Funs
    var builtins: map<string, Builtin>

    /** The three tables as a value. */
    function Snapshot(): Ctx
      reads this
    {
      Ctx(variables, functions, builtins)
    }

    /** `Context::new`: empty tables, then `register_builtin("math", MathLibrary)`. */
    constructor ()
      ensures Snapshot() == NewCtx()
    {
      variables := map[];
      functions := map[];
      builtins := map[];
      new;
      RegisterBuiltin("math", MathLibrary);
    }

    /** `register_builtin`: insert or replace one library; nothing else changes. */
    method RegisterBuiltin(name: string, lib: Builtin)
      modifies this
      ensures builtins == old(builtins)[name := lib]
      ensures variables == old(variables) && functions == old(functions)
    {
      builtins := builtins[name := lib];
    }

    /** `get_builtin`. */
    method GetBuiltin(name: string) returns (r: Option<Builtin>)
      ensures r.Some? <==> name in builtins
      ensures r.Some? ==> r.value == builtins[name]
    {
      if name in builtins {
        r := Some(builtins[name]);
      } else {
        r := None;
      }
    }

    /** `get_variable`. */
    method GetVariable(name: string) returns (r: Option<Expression>)
      ensures r.Some? <==> name in variables
      ensures r.Some? ==> r.value == variables[name]
    {
      if name in variables {
        r := Some(variables[name]);
      } else {
        r := None;
      }
    }

    /** `get_function`. */
    method GetFunction(name: string) returns (r: Option<Function>)
      ensures r.Some? <==> name in functions
      ensures r.Some? ==> r.value == functions[name]
    {
      if name in functions {
        r := Some(functions[name]);
      } else {
        r := None;
      }
    }

    /** The derived `Clone`: a new context owning copies of the tables. */
    method Clone() returns (c: Context)
      ensures fresh(c) && c.Snapshot() == Snapshot()
    {
      c := new Context();
      c.variables, c.functions, c.builtins := variables, functions, builtins;
    }

    /** `evaluate`: the value; the context itself is not written. */
    method Evaluate(e: Expression, fuel: nat) returns (r: Outcome<Expression>)
      decreases fuel, 0, ExprSize(e), 0
      ensures r == GenvMain.Eval(e, Snapshot(), fuel)
    {
      match e
      case Atom(a) =>
        r := Ok(Atom(a));
      case BinaryOperation(op, left, right) =>
        var l := Evaluate(left, fuel);
        if l.Fails? {
          return l;
        }
        var rv := Evaluate(right, fuel);
        if rv.Fails? {
          return rv;
        }
        r := Operate(op, l.value, rv.value);
      case Tuple(items) =>
        var vs := EvaluateAll(items, fuel);
        match vs {
          case Ok(values) => r := Ok(Tuple(values));
          case Fails(why) => r := Fails(why);
        }
      case Function(f) =>
        r := Ok(Function(f));
      case FunctionCall(name, args) =>
        var lib := GetBuiltin(Prefix(name));
        if lib.Some? {
          return BuiltinCall(lib.value, name, args);
        }
        var f := GetFunction(name);
        if f.None? {
          return Fails(Error("Function '" + name + "' not found"));
        }
        var vs := EvaluateAll(args, fuel);
        if vs.Fails? {
          return Fails(vs.failure);
        }
        if fuel == 0 {
          return Fails(OutOfFuel);
        }
        r := Call(f.value, vs.value, this, fuel - 1);
      case MethodCall(_, _, _) =>
        r := Fails(Error("Unsupported operation"));
    }

    /** The arguments or tuple items, in order, stopping at the first failure. */
    method EvaluateAll(es: seq<Expression>, fuel: nat) returns (r: Outcome<seq<Expression>>)
      decreases fuel, 0, ListSize(es), 1
      ensures r == GenvMain.EvalSeqFrom(es, 0, [], Snapshot(), fuel)
    {
      var values := [];
      var i := 0;
      while i < |es|
        invariant i <= |es|
        invariant GenvMain.EvalSeqFrom(es, i, values, Snapshot(), fuel) == GenvMain.EvalSeqFrom(es, 0, [], Snapshot(), fuel)
      {
        ListSizeSplit(es, i);
        var v := Evaluate(es[i], fuel);
        if v.Fails? {
          return Fails(v.failure);
        }
        values := values + [v.value];
        i := i + 1;
      }
      r := Ok(values);
    }

    /** `execute`: on success the tables are the new snapshot; on failure unchanged. */
    method Execute(s: Statement, fuel: nat) returns (failure: Option<Failure>)
      modifies this
      decreases fuel, 1, 0, 0
      ensures failure.None? ==> Exec(s, old(Snapshot()), fuel) == Ok(Snapshot())
      ensures failure.Some? ==> Exec(s, old(Snapshot()), fuel) == Fails(failure.value) && Snapshot() == old(Snapshot())
    {
      match s
      case VariableDeclaration(name, e) =>
        var v := Evaluate(e, fuel);
        if v.Fails? {
          return Some(v.failure);
        }
        variables := variables[name := v.value];
        failure := None;
      case Assignment(name, e) =>
        var v := Evaluate(e, fuel);
        if v.Fails? {
          return Some(v.failure);
        }
        if name !in variables {
          return Some(Error("Variable '" + name + "' not found"));
        }
        variables := variables[name := v.value];
        failure := None;
      case TupleAssignment(names, e) =>
        var v := Evaluate(e, fuel);
        if v.Fails? {
          return Some(v.failure);
        }
        if !v.value.Tuple? {
          return Some(Error("Right-hand side is not a tuple"));
        }
        if |names| != |v.value.items| {
          return Some(Error("Tuple lengths do not match"));
        }
        for i := 0 to |names|
          invariant functions == old(functions) && builtins == old(builtins)
          invariant Runner.BindNames(variables, names, v.value.items, i)
            == Runner.BindNames(old(variables), names, v.value.items, 0)
        {
          variables := variables[names[i] := v.value.items[i]];
        }
        failure := None;
      case FunctionDefinition(f) =>
        functions := functions[f.name := f];
        failure := None;
      case FunctionCall(name, args) =>
        var f := GetFunction(name);
        if f.None? {
          return Some(Error("Function '" + name + "' not found"));
        }
        var vs := EvaluateAll(args, fuel);
        if vs.Fails? {
          return Some(vs.failure);
        }
        if fuel == 0 {
          return Some(OutOfFuel);
        }
        var result := Call(f.value, vs.value, this, fuel - 1);
        if result.Fails? {
          return Some(result.failure);
        }
        failure := None;
    }
  }

  /** `Function::call`: the caller's context is cloned and never written. */
  method Call(f: Function, args: seq<Expression>, caller: Context, fuel: nat) returns (r: Outcome<Expression>)
    decreases fuel, 3, 0, 0
    ensures r == GenvMain.CallFn(f, args, caller.Snapshot(), fuel)
  {
    if |args| != |f.parameters| {
      return Fails(Error("Incorrect number of arguments"));
    }
    var local := caller.Clone();
    var names := ParameterNames(f.parameters);
    for i := 0 to |args|
      invariant local.functions == caller.functions && local.builtins == caller.builtins
      invariant Runner.BindNames(local.variables, names, args, i) == Runner.BindNames(caller.variables, names, args, 0)
    {
      local.variables := local.variables[f.parameters[i].name := args[i]];
    }
    var stmts := f.body.statements;
    for j := 0 to |stmts|
      invariant ExecFrom(stmts, j, local.Snapshot(), fuel)
        == ExecFrom(stmts, 0, caller.Snapshot().(vars := Runner.BindNames(caller.variables, names, args, 0)), fuel)
    {
      var failure := local.Execute(stmts[j], fuel);
      if failure.Some? {
        return Fails(failure.value);
      }
    }
    r := local.Evaluate(f.body.returnExpr, fuel);
  }
}
