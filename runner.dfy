/**
 * `Engine::run_ast` and `Engine::run_ast_scope` (src/context/runast.rs), also the
 * `run_ast` of genv/src/999.rs: parse `many0(preceded(multispace0, parse_statement))`,
 * register every function definition, then run the statements in order until
 * the first failure.
 */
module Runner {
  import opened Text
  import opened Ast
  import opened Parser
  import opened Scopes
  import opened Semantics
  import opened Evaluator

  /** The tables after running statements, and the failure that stopped them, if any. */
  datatype Exec = Exec(vars: Vars, funs: Funs, failure: Option<Failure>)

  /** What a run returns (the variable table or the error) and the tables it leaves
      in the scope it ran in. */
  datatype Run = Run(result: Outcome<Vars>, vars: Vars, funs: Funs)

  /** The first pass from statement `i` on: every `FunctionDefinition` is registered. */
  function RegisterFrom(stmts: seq<Statement>, i: nat, funs: Funs): Funs
    requires i <= |stmts|
    decreases |stmts| - i
  {
    if i == |stmts| then funs
    else RegisterFrom(stmts, i + 1,
      if stmts[i].FunctionDefinition? then funs[stmts[i].func.name := stmts[i].func] else funs)
  }

  /** `zip` then `set_variable` in order, from position `i` on. */
  function BindNames(vars: Vars, names: seq<string>, values: seq<Expression>, i: nat): Vars
    requires |names| == |values| && i <= |names|
    decreases |names| - i
  {
    if i == |names| then vars else BindNames(vars[names[i] := values[i]], names, values, i + 1)
  }

  /** The arguments of a call statement that are bare variables, in order (`filter_map`). */
  function BareVariables(args: seq<Expression>): (names: seq<string>)
    ensures |names| <= |args|
    ensures forall n :: n in names <==> Var(n) in args
  {
    if args == [] then []
    else
      var rest := BareVariables(args[1..]);
      assert forall e :: e in args <==> e == args[0] || e in args[1..];
      if args[0].Atom? && args[0].atom.Variable? then [args[0].atom.name] + rest else rest
  }

  /** One statement of the second pass. */
  function Step(s: Statement, vars: Vars, funs: Funs, fuel: nat): (x: Exec)
    ensures x.failure.Some? ==> x.vars == vars
    ensures s.FunctionDefinition? ==> x == Exec(vars, funs, None)
    ensures s.FunctionCall? && s.callee !in funs ==> x == Exec(vars, funs, Some(Error("Function '" + s.callee + "' not found")))
    ensures s.TupleAssignment? && Eval(s.value, vars, funs, fuel).outcome.Ok? ==>
      var v := Eval(s.value, vars, funs, fuel).outcome.value;
      (!v.Tuple? ==> x.failure == Some(Error("Expected tuple expression"))) &&
      (v.Tuple? && |v.items| != |s.names| ==> x.failure == Some(Error("Tuple assignment mismatch"))) &&
      (v.Tuple? && |v.items| == |s.names| ==> x.failure.None? && x.vars == BindNames(vars, s.names, v.items, 0))
    ensures s.FunctionCall? && s.callee in funs ==>
      var a := EvalSeqFrom(s.args, 0, [], vars, funs, fuel);
      (a.outcome.Fails? ==> x == Exec(vars, a.funs, Some(a.outcome.failure))) &&
      (a.outcome.Ok? && CallFn(funs[s.callee], a.outcome.value, vars, fuel).Fails? ==>
        x == Exec(vars, a.funs, Some(CallFn(funs[s.callee], a.outcome.value, vars, fuel).failure)))
    ensures s.FunctionCall? && s.callee in funs && EvalSeqFrom(s.args, 0, [], vars, funs, fuel).outcome.Ok? ==>
      var a := EvalSeqFrom(s.args, 0, [], vars, funs, fuel);
      var c := CallFn(funs[s.callee], a.outcome.value, vars, fuel);
      var names := BareVariables(s.args);
      c.Ok? ==>
        x.failure.None? && x.funs == a.funs &&
        x.vars == if c.value.Tuple? && |names| == |c.value.items| then BindNames(vars, names, c.value.items, 0) else vars
  {
    match s
    case VariableDeclaration(name, e) => Declare(name, e, vars, funs, fuel)
    case Assignment(name, e) => Declare(name, e, vars, funs, fuel)
    case TupleAssignment(names, e) =>
      var h := Eval(e, vars, funs, fuel);
      (match h.outcome
       case Fails(why) => Exec(vars, h.funs, Some(why))
       case Ok(Tuple(items)) =>
         if |names| == |items| then Exec(BindNames(vars, names, items, 0), h.funs, None)
         else Exec(vars, h.funs, Some(Error("Tuple assignment mismatch")))
       case Ok(_) => Exec(vars, h.funs, Some(Error("Expected tuple expression"))))
    case FunctionDefinition(_) => Exec(vars, funs, None)
    case FunctionCall(name, args) =>
      if name !in funs then Exec(vars, funs, Some(Error("Function '" + name + "' not found")))
      else
        var a := EvalSeqFrom(args, 0, [], vars, funs, fuel);
        match a.outcome
        case Fails(why) => Exec(vars, a.funs, Some(why))
        case Ok(values) =>
          match CallFn(funs[name], values, vars, fuel)
          case Fails(why) => Exec(vars, a.funs, Some(why))
          case Ok(result) =>
            var names := BareVariables(args);
            if result.Tuple? && |names| == |result.items| then Exec(BindNames(vars, names, result.items, 0), a.funs, None)
            else Exec(vars, a.funs, None)
  }

  /** `VariableDeclaration` and `Assignment` alike: evaluate, then overwrite. */
  function Declare(name: string, e: Expression, vars: Vars, funs: Funs, fuel: nat): (x: Exec)
    ensures x.failure.None? ==> Eval(e, vars, funs, fuel).outcome.Ok? && x.vars == vars[name := Eval(e, vars, funs, fuel).outcome.value]
    ensures x.failure.Some? ==> x.vars == vars
  {
    var h := Eval(e, vars, funs, fuel);
    match h.outcome
    case Fails(why) => Exec(vars, h.funs, Some(why))
    case Ok(v) => Exec(vars[name := v], h.funs, None)
  }

  /** The second pass from statement `i` on, stopping at the first failure. */
  function RunFrom(stmts: seq<Statement>, i: nat, vars: Vars, funs: Funs, fuel: nat): Exec
    requires i <= |stmts|
    decreases |stmts| - i
  {
    if i == |stmts| then Exec(vars, funs, None)
    else
      var x := Step(stmts[i], vars, funs, fuel);
      if x.failure.Some? then x else RunFrom(stmts, i + 1, x.vars, x.funs, fuel)
  }

  const ParseErrorPrefix := "Parse error: "

  /** `run_ast_scope` on a scope with tables `vars` and `funs`. */
  function RunScope(code: string, vars: Vars, funs: Funs, fuel: nat): Run
  {
    match ParseStatements(Src, code, 0)
    case Done(stmts, _) =>
      if stmts == [] then Run(Fails(Error("No statements parsed")), vars, funs)
      else
        var x := RunFrom(stmts, 0, vars, RegisterFrom(stmts, 0, funs), fuel);
        Run(if x.failure.Some? then Fails(x.failure.value) else Ok(x.vars), x.vars, x.funs)
    case _ => Run(Fails(Error(ParseErrorPrefix)), vars, funs)
  }

  /** `run_ast`: the same on a fresh scope; only the result is visible. */
  function RunOnFreshScope(code: string, fuel: nat): Outcome<Vars> {
    RunScope(code, map[], map[], fuel).result
  }

  // ---------------------------------------------------------------- the loops

  /** The first `for` loop: register the definitions in the scope. */
  method RegisterDefinitions(stmts: seq<Statement>, scope: Scope)
    modifies scope
    ensures scope.functions == RegisterFrom(stmts, 0, old(scope.functions))
    ensures scope.variables == old(scope.variables)
  {
    for i := 0 to |stmts|
      invariant scope.variables == old(scope.variables)
      invariant RegisterFrom(stmts, i, scope.functions) == RegisterFrom(stmts, 0, old(scope.functions))
    {
      if stmts[i].FunctionDefinition? {
        scope.SetFunction(stmts[i].func.name, stmts[i].func);
      }
    }
  }

  /** `for (var, element) in vars.into_iter().zip(elements) { set_variable(var, element) }`. */
  method BindAll(names: seq<string>, values: seq<Expression>, scope: Scope)
    requires |names| == |values|
    modifies scope
    ensures scope.variables == BindNames(old(scope.variables), names, values, 0)
    ensures scope.functions == old(scope.functions)
  {
    for i := 0 to |names|
      invariant scope.functions == old(scope.functions)
      invariant BindNames(scope.variables, names, values, i) == BindNames(old(scope.variables), names, values, 0)
    {
      scope.SetVariable(names[i], values[i]);
    }
  }

  /** One arm of the second loop's `match`. */
  method ExecuteStatement(s: Statement, scope: Scope, fuel: nat) returns (failure: Option<Failure>)
    modifies scope
    ensures Exec(scope.variables, scope.functions, failure) == Step(s, old(scope.variables), old(scope.functions), fuel)
  {
    match s
    case VariableDeclaration(name, e) =>
      var v := Evaluate(e, scope, fuel);
      if v.Fails? {
        return Some(v.failure);
      }
      scope.SetVariable(name, v.value);
      failure := None;
    case Assignment(name, e) =>
      var v := Evaluate(e, scope, fuel);
      if v.Fails? {
        return Some(v.failure);
      }
      scope.SetVariable(name, v.value);
      failure := None;
    case TupleAssignment(names, e) =>
      var v := Evaluate(e, scope, fuel);
      if v.Fails? {
        return Some(v.failure);
      }
      if !v.value.Tuple? {
        return Some(Error("Expected tuple expression"));
      }
      if |names| != |v.value.items| {
        return Some(Error("Tuple assignment mismatch"));
      }
      BindAll(names, v.value.items, scope);
      failure := None;
    case FunctionDefinition(_) =>
      failure := None;
    case FunctionCall(name, args) =>
      var f := scope.GetFunction(name);
      if f.None? {
        return Some(Error("Function '" + name + "' not found"));
      }
      var values := EvaluateAll(args, scope, fuel);
      if values.Fails? {
        return Some(values.failure);
      }
      var result := Call(f.value, values.value, scope, fuel);
      if result.Fails? {
        return Some(result.failure);
      }
      var names := BareVariables(args);
      if result.value.Tuple? && |names| == |result.value.items| {
        BindAll(names, result.value.items, scope);
      }
      failure := None;
  }

  /** The second `for` loop, returning early at the first failure. */
  method ExecuteAll(stmts: seq<Statement>, scope: Scope, fuel: nat) returns (failure: Option<Failure>)
    modifies scope
    ensures Exec(scope.variables, scope.functions, failure) == RunFrom(stmts, 0, old(scope.variables), old(scope.functions), fuel)
  {
    for i := 0 to |stmts|
      invariant RunFrom(stmts, i, scope.variables, scope.functions, fuel)
        == RunFrom(stmts, 0, old(scope.variables), old(scope.functions), fuel)
    {
      failure := ExecuteStatement(stmts[i], scope, fuel);
      if failure.Some? {
        return;
      }
    }
    failure := None;
  }

  /** `run_ast_scope(code, scope)`: the effects of the statements before a failure stay in `scope`. */
  method RunAstScope(code: string, scope: Scope, fuel: nat) returns (r: Outcome<Vars>)
    modifies scope
    ensures Run(r, scope.variables, scope.functions) == RunScope(code, old(scope.variables), old(scope.functions), fuel)
  {
    var parsed := ParseStatements(Src, code, 0);
    if !parsed.Done? {
      return Fails(Error(ParseErrorPrefix));
    }
    var stmts := parsed.value;
    if stmts == [] {
      return Fails(Error("No statements parsed"));
    }
    RegisterDefinitions(stmts, scope);
    var failure := ExecuteAll(stmts, scope, fuel);
    if failure.Some? {
      return Fails(failure.value);
    }
    r := Ok(scope.variables);
  }

  /** `Engine` of src/engine.rs: a vector of scopes that nothing ever fills. */
  class Engine {
    var scopes: seq<Scope>

    /** `Engine::new`, which is `new_raw`, which is the constant `RAW`. */
    constructor ()
      ensures scopes == []
    {
      scopes := [];
    }

    /** `Engine::new_raw`. */
    constructor Raw()
      ensures scopes == []
    {
      scopes := [];
    }

    /** `Default::default`, which is `new`. */
    constructor Default()
      ensures scopes == []
    {
      scopes := [];
    }

    /** `register_fn`: the function goes into the first scope, if there is one. */
    method RegisterFn(name: string, f: Function)
      modifies if |scopes| > 0 then {scopes[0]} else {}
      ensures |scopes| > 0 ==> scopes[0].functions == old(scopes[0].functions)[name := f]
      ensures |scopes| > 0 ==> scopes[0].variables == old(scopes[0].variables)
      ensures forall k :: 0 <= k < |scopes| && scopes[k] != scopes[0] ==> unchanged(scopes[k])
    {
      if |scopes| > 0 {
        scopes[0].SetFunction(name, f);
      }
    }

    /** `run_ast(&self, code)`: a fresh scope; `self` is not used. */
    method RunAst(code: string, fuel: nat) returns (r: Outcome<Vars>)
      ensures r == RunOnFreshScope(code, fuel)
    {
      var local := new Scope();
      r := RunAstScope(code, local, fuel);
    }
  }
}
