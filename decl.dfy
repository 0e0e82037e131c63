/**
 * The declaration-only interpreters of genv/src/111.rs and genv/src/vm (parser.rs,
 * express.rs and the `Context` of vm.rs). Their statements are variable
 * declarations only, and their `evaluate` differs from the `src/` one:
 *  - the `Atom` arm comes first, so a variable evaluates to itself and the lookup
 *    arm below it is never reached;
 *  - there is no call expression; `Function::call` is only reached from the host;
 *  - 111.rs computes on integers and on doubles, vm/parser.rs on integers only;
 *  - `Function::call` clones the whole context, binds the arguments as given and
 *    runs the body there, so the caller's context is never written.
 *
 * Their `Context` is a variable and a function table with set/get, the same as
 * `Scope` (module Scopes). The specification functions thread the two tables; the
 * methods run on a `Scope` and are proved to agree. Evaluation reaches no call, so
 * it needs no fuel.
 */
module DeclarationOnly {
  import opened Text
  import opened Ast
  import opened Scopes
  import opened Semantics
  import Runner

  /** Which copy: 111.rs (integers and doubles) or vm/parser.rs (integers only). */
  datatype Arithmetic = IntegersAndDoubles | IntegersOnly

  /** The arithmetic arm on two evaluated operands. */
  function Operate(k: Arithmetic, op: BinaryOperator, l: Expression, r: Expression): (res: Outcome<Expression>)
    ensures k.IntegersOnly? && res.Ok? ==> l.Atom? && l.atom.Integer? && r.Atom? && r.atom.Integer?
    ensures k.IntegersOnly? && !(l.Atom? && l.atom.Integer? && r.Atom? && r.atom.Integer?) ==>
      res == Fails(Error("Type error in binary operation"))
    ensures k.IntegersAndDoubles? ==> res == Arith(op, l, r)
    ensures l.Atom? && l.atom.Integer? && r.Atom? && r.atom.Integer? ==> res == IntOp(op, l.atom.int64, r.atom.int64)
  {
    match k
    case IntegersAndDoubles => Arith(op, l, r)
    case IntegersOnly =>
      if l.Atom? && l.atom.Integer? && r.Atom? && r.atom.Integer? then IntOp(op, l.atom.int64, r.atom.int64)
      else Fails(Error("Type error in binary operation"))
  }

  /** `Expression::evaluate(&self, &mut context)`: the outcome and the function table
      afterwards (a function literal registers itself). `vars` is never consulted. */
  function Eval(k: Arithmetic, e: Expression, vars: Vars, funs: Funs): (r: Evaluated<Expression>)
    decreases ExprSize(e), 0
    ensures funs.Keys <= r.funs.Keys
    ensures e.Atom? ==> r == Evaluated(Ok(e), funs)
    ensures e.Tuple? && r.outcome.Ok? ==> r.outcome.value.Tuple? && |r.outcome.value.items| == |e.items|
    ensures e.Function? ==> r == Evaluated(Ok(e), funs[e.func.name := e.func])
    ensures e.FunctionCall? || e.MethodCall? ==> r == Evaluated(Fails(Error("Unsupported expression")), funs)
  {
    match e
    case Atom(a) => Evaluated(Ok(Atom(a)), funs)
    case BinaryOperation(op, left, right) =>
      var l := Eval(k, left, vars, funs);
      if l.outcome.Fails? then l
      else
        var r := Eval(k, right, vars, l.funs);
        if r.outcome.Fails? then r
        else Evaluated(Operate(k, op, l.outcome.value, r.outcome.value), r.funs)
    case Function(f) => Evaluated(Ok(Function(f)), funs[f.name := f])
    case Tuple(items) =>
      var r := EvalSeqFrom(k, items, 0, [], vars, funs);
      (match r.outcome
       case Ok(vs) => Evaluated(Ok(Tuple(vs)), r.funs)
       case Fails(why) => Evaluated(Fails(why), r.funs))
    case _ => Evaluated(Fails(Error("Unsupported expression")), funs)
  }

  /** The tuple's elements from `i` on, in order, the values so far in `acc`. */
  function EvalSeqFrom(k: Arithmetic, es: seq<Expression>, i: nat, acc: seq<Expression>, vars: Vars, funs: Funs)
    : (r: Evaluated<seq<Expression>>)
    requires i <= |es|
    decreases ListSize(es[i..]), 1
    ensures funs.Keys <= r.funs.Keys
    ensures r.outcome.Ok? ==> |r.outcome.value| == |acc| + |es| - i && r.outcome.value[..|acc|] == acc
  {
    if i == |es| then Evaluated(Ok(acc), funs)
    else
      assert es[i..][0] == es[i] && es[i..][1..] == es[i + 1..];
      var h := Eval(k, es[i], vars, funs);
      match h.outcome
      case Fails(why) => Evaluated(Fails(why), h.funs)
      case Ok(v) =>
        var r := EvalSeqFrom(k, es, i + 1, acc + [v], vars, h.funs);
        assert r.outcome.Ok? ==> r.outcome.value[..|acc|] == (acc + [v])[..|acc|];
        r
  }

  /** The statements of these copies: variable declarations only. */
  predicate AllDeclarations(stmts: seq<Statement>) {
    forall i :: 0 <= i < |stmts| ==> stmts[i].VariableDeclaration?
  }

  /** The tables after a run of statements, and the failure that stopped it, if any. */
  datatype Tables = Tables(vars: Vars, funs: Funs, failure: Option<Failure>)

  /** `for stmt in statements { stmt.execute(&mut context)? }` from statement `i` on:
      each declaration evaluates its expression and binds the result. */
  function ExecFrom(k: Arithmetic, stmts: seq<Statement>, i: nat, vars: Vars, funs: Funs): (r: Tables)
    requires i <= |stmts| && AllDeclarations(stmts)
    decreases |stmts| - i
    ensures r.failure.None? ==> vars.Keys <= r.vars.Keys
    ensures r.failure.None? ==> forall j :: i <= j < |stmts| ==> stmts[j].name in r.vars
    // a name no declaration binds keeps its value
    ensures forall n :: n in vars && (forall j :: i <= j < |stmts| ==> stmts[j].name != n) ==>
      n in r.vars && r.vars[n] == vars[n]
    // a declaration that evaluates binds its value, unless a later one rebinds the name
    ensures (i < |stmts| && Eval(k, stmts[i].value, vars, funs).outcome.Ok?
             && (forall j :: i < j < |stmts| ==> stmts[j].name != stmts[i].name)) ==>
      stmts[i].name in r.vars && r.vars[stmts[i].name] == Eval(k, stmts[i].value, vars, funs).outcome.value
    // the first failing declaration stops the run, its binding not made
    ensures i < |stmts| && Eval(k, stmts[i].value, vars, funs).outcome.Fails? ==>
      r == Tables(vars, Eval(k, stmts[i].value, vars, funs).funs, Some(Eval(k, stmts[i].value, vars, funs).outcome.failure))
  {
    if i == |stmts| then Tables(vars, funs, None)
    else
      var h := Eval(k, stmts[i].value, vars, funs);
      match h.outcome
      case Fails(why) => Tables(vars, h.funs, Some(why))
      case Ok(v) => ExecFrom(k, stmts, i + 1, vars[stmts[i].name := v], h.funs)
  }

  /** `Function::call(&self, args, &mut context)`: the arity check, then the arguments
      bound unevaluated in a clone of the caller's tables, the body, the return
      expression. */
  function CallFn(k: Arithmetic, f: Function, args: seq<Expression>, vars: Vars, funs: Funs): (r: Outcome<Expression>)
    requires AllDeclarations(f.body.statements)
    ensures |args| != |f.parameters| ==> r == Fails(Error("Incorrect number of arguments"))
  {
    if |args| != |f.parameters| then Fails(Error("Incorrect number of arguments"))
    else
      var names := seq(|f.parameters|, i requires 0 <= i < |f.parameters| => f.parameters[i].name);
      var t := ExecFrom(k, f.body.statements, 0, Runner.BindNames(vars, names, args, 0), funs);
      if t.failure.Some? then Fails(t.failure.value)
      else Eval(k, f.body.returnExpr, t.vars, t.funs).outcome
  }

  // ---------------------------------------------------------------- on a context object

  /** `evaluate` on a context: only its function table changes. */
  method Evaluate(k: Arithmetic, e: Expression, context: Scope) returns (r: Outcome<Expression>)
    modifies context
    decreases ExprSize(e), 0
    ensures Evaluated(r, context.functions) == Eval(k, e, old(context.variables), old(context.functions))
    ensures context.variables == old(context.variables)
  {
    match e
    case Atom(a) =>
      r := Ok(Atom(a));
    case BinaryOperation(op, left, right) =>
      var l := Evaluate(k, left, context);
      if l.Fails? {
        return l;
      }
      var rv := Evaluate(k, right, context);
      if rv.Fails? {
        return rv;
      }
      r := Operate(k, op, l.value, rv.value);
    case Function(f) =>
      context.SetFunction(f.name, f);
      r := Ok(Function(f));
    case Tuple(items) =>
      var vs := EvaluateAll(k, items, context);
      match vs {
        case Ok(values) => r := Ok(Tuple(values));
        case Fails(why) => r := Fails(why);
      }
    case _ =>
      r := Fails(Error("Unsupported expression"));
  }

  /** The tuple's elements, in order, stopping at the first error. */
  method EvaluateAll(k: Arithmetic, es: seq<Expression>, context: Scope) returns (r: Outcome<seq<Expression>>)
    modifies context
    decreases ListSize(es), 1
    ensures Evaluated(r, context.functions) == EvalSeqFrom(k, es, 0, [], old(context.variables), old(context.functions))
    ensures context.variables == old(context.variables)
  {
    var values := [];
    var i := 0;
    while i < |es|
      invariant i <= |es|
      invariant context.variables == old(context.variables)
      invariant EvalSeqFrom(k, es, i, values, context.variables, context.functions)
        == EvalSeqFrom(k, es, 0, [], old(context.variables), old(context.functions))
    {
      ListSizeSplit(es, i);
      var v := Evaluate(k, es[i], context);
      if v.Fails? {
        return Fails(v.failure);
      }
      values := values + [v.value];
      i := i + 1;
    }
    r := Ok(values);
  }

  /** `Statement::execute`: evaluate, then `set_variable`. */
  method Execute(k: Arithmetic, s: Statement, context: Scope) returns (failure: Option<Failure>)
    requires s.VariableDeclaration?
    modifies context
    ensures ExecFrom(k, [s], 0, old(context.variables), old(context.functions))
      == Tables(context.variables, context.functions, failure)
  {
    var v := Evaluate(k, s.value, context);
    if v.Fails? {
      return Some(v.failure);
    }
    context.SetVariable(s.name, v.value);
    failure := None;
  }

  /** `Function::call`: the work happens on a clone; the caller's context is not written. */
  method Call(k: Arithmetic, f: Function, args: seq<Expression>, caller: Scope) returns (r: Outcome<Expression>)
    requires AllDeclarations(f.body.statements)
    ensures r == CallFn(k, f, args, caller.variables, caller.functions)
  {
    if |args| != |f.parameters| {
      return Fails(Error("Incorrect number of arguments"));
    }
    var local := caller.Clone();
    ghost var names := seq(|f.parameters|, i requires 0 <= i < |f.parameters| => f.parameters[i].name);
    for i := 0 to |args|
      invariant local.functions == caller.functions
      invariant Runner.BindNames(local.variables, names, args, i) == Runner.BindNames(caller.variables, names, args, 0)
    {
      local.SetVariable(f.parameters[i].name, args[i]);
    }
    var stmts := f.body.statements;
    for j := 0 to |stmts|
      invariant ExecFrom(k, stmts, j, local.variables, local.functions)
        == ExecFrom(k, stmts, 0, Runner.BindNames(caller.variables, names, args, 0), caller.functions)
    {
      var failure := Execute(k, stmts[j], local);
      if failure.Some? {
        return Fails(failure.value);
      }
    }
    r := Evaluate(k, f.body.returnExpr, local);
  }
}
