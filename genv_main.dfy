/**
 * The interpreter of genv/src/main.rs: the same syntax tree, but another semantics.
 *  - Atoms, variables included, evaluate to themselves; nothing is looked up.
 *  - Arithmetic is on integers only; `==` and `!=` compare any two values structurally.
 *  - A call whose name, up to its first `.`, names a builtin library goes to that
 *    library with the arguments unevaluated; otherwise a user function is called.
 *  - `Function::call` runs in a clone of the whole context, so a call changes
 *    nothing the caller can see, and runs every statement of the body.
 *  - `Assignment` needs an existing binding; a call statement discards its result.
 *
 * `evaluate` only reads the context, so it is a function of a snapshot `Ctx` of the
 * three tables; `execute` returns the new snapshot. The methods of class `Context`
 * (module GenvMainContext) run on the tables in place and are proved to agree.
 *
 * `i64` overflow, division by zero and `abs` of `i64::MIN` panic (a debug build);
 * unbounded recursion is cut off by a `fuel` bound that each call consumes.
 */
module GenvMain {
  import opened Text
  import opened Ast
  import opened Integers
  import opened Semantics
  import Runner

  /** The implementations of `BuiltinLibrary`. */
  datatype Builtin = MathLibrary

  /** A snapshot of the three tables of a `Context`. */
  datatype Ctx = Ctx(vars: Vars, funs: Funs, builtins: map<string, Builtin>)

  /** `MathLibrary::call`: `math.abs` of an `Integer` first argument, by its full name. */
  function MathCall(name: string, args: seq<Expression>): (r: Outcome<Expression>)
    ensures r.Ok? <==>
      name == "math.abs" && |args| > 0 && args[0].Atom? && args[0].atom.Integer? && args[0].atom.int64 != MinI64
    ensures r.Ok? ==> r.value == Int(Abs(args[0].atom.int64))
    ensures name == "math.abs" && r.Fails? && r.failure.Error? ==> r.failure.message == "Invalid argument for math.abs"
    ensures name != "math.abs" ==> r == Fails(Error("Function " + name + " not found in math library"))
  {
    if name == "math.abs" then
      if |args| > 0 && args[0].Atom? && args[0].atom.Integer? then
        var v := args[0].atom.int64;
        if v == MinI64 then Fails(Panic("attempt to negate with overflow")) else Ok(Int(Abs(v)))
      else Fails(Error("Invalid argument for math.abs"))
    else Fails(Error("Function " + name + " not found in math library"))
  }

  /** `library.call(name, args)`. */
  function BuiltinCall(lib: Builtin, name: string, args: seq<Expression>): Outcome<Expression> {
    match lib
    case MathLibrary => MathCall(name, args)
  }

  /** `name.split('.').next()`: the name up to its first `.`, or all of it. */
  function Prefix(name: string): (p: string)
    ensures |p| <= |name| && p == name[..|p|]
    ensures '.' !in p
    ensures |p| < |name| ==> name[|p|] == '.'
  {
    if name == [] || name[0] == '.' then []
    else [name[0]] + Prefix(name[1..])
  }

  /** The operation on two evaluated operands: the four arithmetic operators on two
      integers, and `==`/`!=` on anything. */
  function Operate(op: BinaryOperator, l: Expression, r: Expression): (res: Outcome<Expression>)
    ensures op.Equal? ==> res == Ok(Atom(Boolean(l == r)))
    ensures op.NotEqual? ==> res == Ok(Atom(Boolean(l != r)))
    ensures !op.Equal? && !op.NotEqual? && !(l.Atom? && l.atom.Integer? && r.Atom? && r.atom.Integer?) ==>
      res == Fails(Error("Unsupported operation"))
    ensures !op.Equal? && !op.NotEqual? && res.Ok? ==> res.value.Atom? && res.value.atom.Integer?
    ensures !op.Equal? && !op.NotEqual? && l.Atom? && l.atom.Integer? && r.Atom? && r.atom.Integer? ==>
      res == IntOp(op, l.atom.int64, r.atom.int64)
  {
    if op.Equal? then Ok(Atom(Boolean(l == r)))
    else if op.NotEqual? then Ok(Atom(Boolean(l != r)))
    else if l.Atom? && l.atom.Integer? && r.Atom? && r.atom.Integer? then IntOp(op, l.atom.int64, r.atom.int64)
    else Fails(Error("Unsupported operation"))
  }

  /** The names of a function's parameters, in order. */
  function ParameterNames(ps: seq<Parameter>): (names: seq<string>)
    ensures |names| == |ps|
    ensures forall i :: 0 <= i < |ps| ==> names[i] == ps[i].name
  {
    if ps == [] then [] else [ps[0].name] + ParameterNames(ps[1..])
  }

  /** `Expression::evaluate(&self, context)`: the context is only read. */
  function Eval(e: Expression, c: Ctx, fuel: nat): (r: Outcome<Expression>)
    decreases fuel, 0, ExprSize(e), 0
    ensures e.Atom? || e.Function? ==> r == Ok(e)
    ensures e.Tuple? && r.Ok? ==> r.value.Tuple? && |r.value.items| == |e.items|
  {
    match e
    case Atom(a) => Ok(Atom(a))
    case BinaryOperation(op, left, right) =>
      var l := Eval(left, c, fuel);
      if l.Fails? then l
      else
        var r := Eval(right, c, fuel);
        if r.Fails? then r
        else Operate(op, l.value, r.value)
    case Tuple(items) =>
      (match EvalSeqFrom(items, 0, [], c, fuel)
       case Ok(vs) => Ok(Tuple(vs))
       case Fails(why) => Fails(why))
    case Function(f) => Ok(Function(f))
    case FunctionCall(name, args) =>
      if Prefix(name) in c.builtins then BuiltinCall(c.builtins[Prefix(name)], name, args)
      else if name in c.funs then
        match EvalSeqFrom(args, 0, [], c, fuel)
        case Fails(why) => Fails(why)
        case Ok(vs) => if fuel == 0 then Fails(OutOfFuel) else CallFn(c.funs[name], vs, c, fuel - 1)
      else Fails(Error("Function '" + name + "' not found"))
    case MethodCall(_, _, _) => Fails(Error("Unsupported operation"))
  }

  /** `iter().map(|e| e.evaluate(context)).collect()` from element `i` on, the values
      before `i` in `acc`: in order, stopping at the first failure. */
  function EvalSeqFrom(es: seq<Expression>, i: nat, acc: seq<Expression>, c: Ctx, fuel: nat)
    : (r: Outcome<seq<Expression>>)
    requires i <= |es|
    decreases fuel, 0, ListSize(es[i..]), 1
    ensures r.Ok? ==> |r.value| == |acc| + |es| - i && r.value[..|acc|] == acc
  {
    if i == |es| then Ok(acc)
    else
      assert es[i..][0] == es[i] && es[i..][1..] == es[i + 1..];
      match Eval(es[i], c, fuel)
      case Fails(why) => Fails(why)
      case Ok(v) =>
        var r := EvalSeqFrom(es, i + 1, acc + [v], c, fuel);
        assert r.Ok? ==> r.value[..|acc|] == (acc + [v])[..|acc|];
        r
  }

  /** `Function::call(&self, args, context)`: the arity check, then the parameters bound
      in a clone of the caller's context, every body statement, the return expression. */
  function CallFn(f: Function, args: seq<Expression>, c: Ctx, fuel: nat): (r: Outcome<Expression>)
    decreases fuel, 3, 0, 0
    ensures |args| != |f.parameters| ==> r == Fails(Error("Incorrect number of arguments"))
  {
    if |args| != |f.parameters| then Fails(Error("Incorrect number of arguments"))
    else
      var local := c.(vars := Runner.BindNames(c.vars, ParameterNames(f.parameters), args, 0));
      match ExecFrom(f.body.statements, 0, local, fuel)
      case Fails(why) => Fails(why)
      case Ok(c2) => Eval(f.body.returnExpr, c2, fuel)
  }

  /** `Statement::execute(&self, context)`: the new tables, or the failure, which leaves
      the tables as they were. */
  function Exec(s: Statement, c: Ctx, fuel: nat): (r: Outcome<Ctx>)
    decreases fuel, 1, 0, 0
    ensures r.Ok? ==> r.value.builtins == c.builtins
    ensures r.Ok? && !s.FunctionDefinition? ==> r.value.funs == c.funs
    ensures r.Ok? && (s.FunctionDefinition? || s.FunctionCall?) ==> r.value.vars == c.vars
    ensures s.Assignment? && s.name !in c.vars ==> r.Fails?
    // an expression that fails fails the statement
    ensures (s.VariableDeclaration? || s.Assignment? || s.TupleAssignment?) && Eval(s.value, c, fuel).Fails? ==>
      r == Fails(Eval(s.value, c, fuel).failure)
    ensures s.VariableDeclaration? && Eval(s.value, c, fuel).Ok? ==>
      r == Ok(c.(vars := c.vars[s.name := Eval(s.value, c, fuel).value]))
    ensures s.Assignment? && Eval(s.value, c, fuel).Ok? ==>
      if s.name in c.vars then r == Ok(c.(vars := c.vars[s.name := Eval(s.value, c, fuel).value]))
      else r == Fails(Error("Variable '" + s.name + "' not found"))
    ensures s.TupleAssignment? && Eval(s.value, c, fuel).Ok? && !Eval(s.value, c, fuel).value.Tuple? ==>
      r == Fails(Error("Right-hand side is not a tuple"))
    ensures s.TupleAssignment? && Eval(s.value, c, fuel).Ok? && Eval(s.value, c, fuel).value.Tuple? ==>
      if |s.names| != |Eval(s.value, c, fuel).value.items| then r == Fails(Error("Tuple lengths do not match"))
      else r == Ok(c.(vars := Runner.BindNames(c.vars, s.names, Eval(s.value, c, fuel).value.items, 0)))
    ensures s.FunctionDefinition? ==> r == Ok(c.(funs := c.funs[s.func.name := s.func]))
    ensures s.FunctionCall? && s.callee !in c.funs ==> r == Fails(Error("Function '" + s.callee + "' not found"))
  {
    match s
    case VariableDeclaration(name, e) =>
      (match Eval(e, c, fuel)
       case Fails(why) => Fails(why)
       case Ok(v) => Ok(c.(vars := c.vars[name := v])))
    case Assignment(name, e) =>
      (match Eval(e, c, fuel)
       case Fails(why) => Fails(why)
       case Ok(v) =>
         if name in c.vars then Ok(c.(vars := c.vars[name := v]))
         else Fails(Error("Variable '" + name + "' not found")))
    case TupleAssignment(names, e) =>
      (match Eval(e, c, fuel)
       case Fails(why) => Fails(why)
       case Ok(v) =>
         if !v.Tuple? then Fails(Error("Right-hand side is not a tuple"))
         else if |names| != |v.items| then Fails(Error("Tuple lengths do not match"))
         else Ok(c.(vars := Runner.BindNames(c.vars, names, v.items, 0))))
    case FunctionDefinition(f) => Ok(c.(funs := c.funs[f.name := f]))
    case FunctionCall(name, args) =>
      if name !in c.funs then Fails(Error("Function '" + name + "' not found"))
      else
        match EvalSeqFrom(args, 0, [], c, fuel)
        case Fails(why) => Fails(why)
        case Ok(vs) =>
          if fuel == 0 then Fails(OutOfFuel)
          else
            match CallFn(c.funs[name], vs, c, fuel - 1)
            case Fails(why) => Fails(why)
            case Ok(_) => Ok(c)
  }

  /** The statements from `i` on, in order; the first failure ends the run. */
  function ExecFrom(stmts: seq<Statement>, i: nat, c: Ctx, fuel: nat): (r: Outcome<Ctx>)
    requires i <= |stmts|
    decreases fuel, 2, |stmts| - i, 0
    ensures r.Ok? ==> r.value.builtins == c.builtins
  {
    if i == |stmts| then Ok(c)
    else
      match Exec(stmts[i], c, fuel)
      case Fails(why) => Fails(why)
      case Ok(c2) => ExecFrom(stmts, i + 1, c2, fuel)
  }

  /** `Context::new`: no variables, no functions, the `math` library registered. */
  function NewCtx(): Ctx {
    Ctx(map[], map[], map["math" := MathLibrary])
  }
}
