/**
 * Properties of `evaluate` and `Function::call` (src/context/expression.rs,
 * src/context/function.rs) stated over the specification functions.
 */
module EvalFacts {
  import opened Text
  import opened Ast
  import opened Integers
  import opened Semantics

  /** A value evaluates to itself, whatever the tables and the fuel: evaluating
      what `evaluate` returned changes nothing but (re-)registers its function literals. */
  lemma {:induction false} ValueEvaluatesToItself(v: Expression, vars: Vars, funs: Funs, fuel: nat)
    requires IsValue(v)
    decreases ExprSize(v), 0
    ensures Eval(v, vars, funs, fuel).outcome == Ok(v)
  {
    match v
    case Tuple(items) =>
      ValuesEvaluateToThemselves(items, 0, [], vars, funs, fuel);
      assert [] + items[0..] == items;
    case _ =>
  }

  lemma {:induction false} ValuesEvaluateToThemselves(es: seq<Expression>, i: nat, acc: seq<Expression>,
                                                      vars: Vars, funs: Funs, fuel: nat)
    requires i <= |es|
    requires forall k :: 0 <= k < |es| ==> IsValue(es[k])
    decreases ListSize(es[i..]), 1
    ensures EvalSeqFrom(es, i, acc, vars, funs, fuel).outcome == Ok(acc + es[i..])
  {
    if i < |es| {
      assert es[i..][0] == es[i] && es[i..][1..] == es[i + 1..];
      ValueEvaluatesToItself(es[i], vars, funs, fuel);
      var h := Eval(es[i], vars, funs, fuel);
      ValuesEvaluateToThemselves(es, i + 1, acc + [es[i]], vars, h.funs, fuel);
      assert acc + [es[i]] + es[i + 1..] == acc + es[i..];
    } else {
      assert acc + es[i..] == acc;
    }
  }

  /** Recursive variable resolution: a variable bound to a value evaluates to that value. */
  lemma BoundVariableEvaluatesToValue(name: string, vars: Vars, funs: Funs, fuel: nat)
    requires name in vars && IsValue(vars[name]) && fuel > 0
    ensures Eval(Var(name), vars, funs, fuel).outcome == Ok(vars[name])
  {
    ValueEvaluatesToItself(vars[name], vars, funs, fuel - 1);
  }

  /** `evaluate` never returns a variable: whatever a name is bound to, the result is resolved. */
  lemma NeverReturnsVariable(e: Expression, vars: Vars, funs: Funs, fuel: nat)
    requires Eval(e, vars, funs, fuel).outcome.Ok?
    ensures !Eval(e, vars, funs, fuel).outcome.value.Atom? || !Eval(e, vars, funs, fuel).outcome.value.atom.Variable?
  {
  }

  /** A function literal registers itself under its own name and is its own value. */
  lemma LiteralRegistersItself(f: Function, vars: Vars, funs: Funs, fuel: nat)
    ensures Eval(Function(f), vars, funs, fuel).outcome == Ok(Function(f))
    ensures Eval(Function(f), vars, funs, fuel).funs == funs[f.name := f]
  {
  }

  /** A call to a missing function fails before any argument is evaluated: not even a
      function literal among the arguments gets registered. */
  lemma MissingFunctionEvaluatesNoArgument(name: string, args: seq<Expression>, vars: Vars, funs: Funs, fuel: nat)
    requires name !in funs
    ensures Eval(Expression.FunctionCall(name, args), vars, funs, fuel)
      == Evaluated(Fails(Error("Function '" + name + "' not found")), funs)
  {
  }

  /** Parameters are bound in order, so of two parameters with the same name the later wins. */
  lemma DuplicateParameterLaterWins(f: Function, x: string, a: Expression, b: Expression, vars: Vars, fuel: nat)
    requires f.parameters == [Parameter(x, None), Parameter(x, None)]
    requires f.body == Block([], Var(x))
    requires IsValue(a) && IsValue(b) && fuel > 0
    ensures CallFn(f, [a, b], vars, fuel) == Ok(b)
  {
    ValueEvaluatesToItself(a, vars, map[], fuel);
    var h := Eval(a, vars, map[], fuel);
    ValueEvaluatesToItself(b, vars[x := a], h.funs, fuel);
    var h2 := Eval(b, vars[x := a], h.funs, fuel);
    BoundVariableEvaluatesToValue(x, vars[x := a][x := b], h2.funs, fuel);
    assert BindFrom(f, [a, b], 2, vars[x := a][x := b], h2.funs, fuel) == Ok(b);
    assert BindFrom(f, [a, b], 1, vars[x := a], h.funs, fuel) == Ok(b);
  }

  /** The callee's function table starts empty, so a function that calls itself by
      name fails with "not found" instead of recursing. */
  lemma SelfCallIsNotFound(f: Function, vars: Vars, fuel: nat)
    requires f.parameters == [] && f.body == Block([], Expression.FunctionCall(f.name, []))
    ensures CallFn(f, [], vars, fuel) == Fails(Error("Function '" + f.name + "' not found"))
  {
    assert RunDecls(f, 0, vars, map[], fuel) == Fails(Error("Function '" + f.name + "' not found"));
  }

  /** Only variable declarations of a body run: with none, the other statements are
      skipped and the result is the return expression in the scope of the bound parameters. */
  lemma {:induction false} OnlyDeclarationsRun(f: Function, i: nat, vars: Vars, funs: Funs, fuel: nat)
    requires i <= |f.body.statements|
    requires forall k :: i <= k < |f.body.statements| ==> !f.body.statements[k].VariableDeclaration?
    decreases |f.body.statements| - i
    ensures RunDecls(f, i, vars, funs, fuel) == Eval(f.body.returnExpr, vars, funs, fuel).outcome
  {
    if i < |f.body.statements| {
      OnlyDeclarationsRun(f, i + 1, vars, funs, fuel);
    }
  }

  /** Integer division truncates toward zero: `-7 / 2 == -3`, where Dafny's `/` gives `-4`. */
  lemma DivisionTruncates()
    ensures IntOp(Divide, -7, 2) == Ok(Int(-3))
  {
    assert TruncDiv(-7, 2) == -3;
  }

  /** `i64::MAX + 1` panics rather than wrapping. */
  lemma AdditionOverflowPanics()
    ensures IntOp(Plus, MaxI64, 1) == Fails(Panic("attempt to add with overflow"))
  {
  }

  /** `left.evaluate(context)?`: when the left operand fails, that failure is the result
      and the right operand is not evaluated. */
  lemma LeftFailureWins(op: BinaryOperator, left: Expression, right: Expression, vars: Vars, funs: Funs, fuel: nat)
    requires Eval(left, vars, funs, fuel).outcome.Fails?
    ensures Eval(BinaryOperation(op, left, right), vars, funs, fuel) == Eval(left, vars, funs, fuel)
  {
  }

  /** The right operand is evaluated after the left one, in the function table the left
      one leaves; a failure there is the result, otherwise the operator is applied. */
  lemma RightSeesLeftFunctions(op: BinaryOperator, left: Expression, right: Expression, vars: Vars, funs: Funs,
                               fuel: nat)
    requires Eval(left, vars, funs, fuel).outcome.Ok?
    ensures
      var l := Eval(left, vars, funs, fuel);
      var r := Eval(right, vars, l.funs, fuel);
      Eval(BinaryOperation(op, left, right), vars, funs, fuel) ==
        if r.outcome.Fails? then r else Evaluated(Arith(op, l.outcome.value, r.outcome.value), r.funs)
  {
  }

  /** A call to a registered function evaluates the arguments in the caller's scope and
      then calls the function on their values; a failing argument is the result. */
  lemma FoundFunctionCall(name: string, args: seq<Expression>, vars: Vars, funs: Funs, fuel: nat)
    requires name in funs && fuel > 0
    ensures
      var a := EvalSeqFrom(args, 0, [], vars, funs, fuel);
      Eval(Expression.FunctionCall(name, args), vars, funs, fuel) ==
        match a.outcome
        case Ok(vs) => Evaluated(CallFn(funs[name], vs, vars, fuel - 1), a.funs)
        case Fails(why) => Evaluated(Fails(why), a.funs)
  {
  }

  /** `collect()` into a `Result` stops at the first failing element: that element's
      failure is the failure of the whole list, and no later element is evaluated. */
  lemma FirstFailureStops(es: seq<Expression>, i: nat, acc: seq<Expression>, vars: Vars, funs: Funs, fuel: nat)
    requires i < |es| && Eval(es[i], vars, funs, fuel).outcome.Fails?
    ensures
      var h := Eval(es[i], vars, funs, fuel);
      EvalSeqFrom(es, i, acc, vars, funs, fuel) == Evaluated(Fails(h.outcome.failure), h.funs)
  {
  }

  /** Every failure of a list is the failure of one of its elements, evaluated in a
      function table that extends the one the list started with. */
  lemma {:induction false} ListFailureIsElementFailure(es: seq<Expression>, i: nat, acc: seq<Expression>,
                                                      vars: Vars, funs: Funs, fuel: nat)
    requires i <= |es| && EvalSeqFrom(es, i, acc, vars, funs, fuel).outcome.Fails?
    decreases |es| - i
    ensures exists j, g: Funs ::
      (i <= j < |es| && funs.Keys <= g.Keys &&
       Eval(es[j], vars, g, fuel).outcome == Fails(EvalSeqFrom(es, i, acc, vars, funs, fuel).outcome.failure))
  {
    var h := Eval(es[i], vars, funs, fuel);
    if h.outcome.Fails? {
      assert Eval(es[i], vars, funs, fuel).outcome == Fails(EvalSeqFrom(es, i, acc, vars, funs, fuel).outcome.failure);
    } else {
      ListFailureIsElementFailure(es, i + 1, acc + [h.outcome.value], vars, h.funs, fuel);
      var j, g: Funs :| i + 1 <= j < |es| && h.funs.Keys <= g.Keys &&
        Eval(es[j], vars, g, fuel).outcome == Fails(EvalSeqFrom(es, i + 1, acc + [h.outcome.value], vars, h.funs, fuel).outcome.failure);
      assert i <= j < |es| && funs.Keys <= g.Keys;
    }
  }

  // ------------------------------------------------------------------- fuel

  /** Fuel only cuts evaluation off: an outcome other than `OutOfFuel` is the same with
      any larger fuel, so it is the outcome of the unbounded evaluation. */
  lemma {:induction false} MoreFuelSameEval(e: Expression, vars: Vars, funs: Funs, fuel: nat, more: nat)
    requires fuel <= more && Eval(e, vars, funs, fuel).outcome != Fails(OutOfFuel)
    decreases fuel, 0, ExprSize(e), 1
    ensures Eval(e, vars, funs, more) == Eval(e, vars, funs, fuel)
  {
    match e
    case Atom(Variable(name)) =>
      MoreFuelSameVariable(name, vars, funs, fuel, more);
    case Atom(_) =>
    case BinaryOperation(op, left, right) =>
      MoreFuelSameOperands(op, left, right, vars, funs, fuel, more);
    case Function(_) =>
    case Tuple(items) =>
      assert items[0..] == items;
      MoreFuelSameSeq(items, 0, [], vars, funs, fuel, more);
    case FunctionCall(name, args) =>
      MoreFuelSameFunctionCall(name, args, vars, funs, fuel, more);
    case MethodCall(_, _, _) =>
  }

  lemma {:induction false} MoreFuelSameVariable(name: string, vars: Vars, funs: Funs, fuel: nat, more: nat)
    requires fuel <= more && Eval(Var(name), vars, funs, fuel).outcome != Fails(OutOfFuel)
    decreases fuel, 0, ExprSize(Var(name)), 0
    ensures Eval(Var(name), vars, funs, more) == Eval(Var(name), vars, funs, fuel)
  {
    if name in vars {
      MoreFuelSameEval(vars[name], vars, funs, fuel - 1, more - 1);
    }
  }

  lemma {:induction false} MoreFuelSameOperands(op: BinaryOperator, left: Expression, right: Expression, vars: Vars,
                                                funs: Funs, fuel: nat, more: nat)
    requires fuel <= more && Eval(BinaryOperation(op, left, right), vars, funs, fuel).outcome != Fails(OutOfFuel)
    decreases fuel, 0, ExprSize(BinaryOperation(op, left, right)), 0
    ensures Eval(BinaryOperation(op, left, right), vars, funs, more) == Eval(BinaryOperation(op, left, right), vars, funs, fuel)
  {
    var l := Eval(left, vars, funs, fuel);
    MoreFuelSameEval(left, vars, funs, fuel, more);
    if l.outcome.Ok? {
      MoreFuelSameEval(right, vars, l.funs, fuel, more);
    }
  }

  lemma {:induction false} MoreFuelSameFunctionCall(name: string, args: seq<Expression>, vars: Vars, funs: Funs,
                                                    fuel: nat, more: nat)
    requires fuel <= more && Eval(Expression.FunctionCall(name, args), vars, funs, fuel).outcome != Fails(OutOfFuel)
    decreases fuel, 0, ExprSize(Expression.FunctionCall(name, args)), 0
    ensures Eval(Expression.FunctionCall(name, args), vars, funs, more) == Eval(Expression.FunctionCall(name, args), vars, funs, fuel)
  {
    if name in funs {
      assert args[0..] == args;
      var a := EvalSeqFrom(args, 0, [], vars, funs, fuel);
      MoreFuelSameSeq(args, 0, [], vars, funs, fuel, more);
      if a.outcome.Ok? {
        MoreFuelSameCall(funs[name], a.outcome.value, vars, fuel - 1, more - 1);
      }
    }
  }

  lemma {:induction false} MoreFuelSameSeq(es: seq<Expression>, i: nat, acc: seq<Expression>, vars: Vars, funs: Funs,
                                           fuel: nat, more: nat)
    requires i <= |es| && fuel <= more
    requires EvalSeqFrom(es, i, acc, vars, funs, fuel).outcome != Fails(OutOfFuel)
    decreases fuel, 0, ListSize(es[i..]), 2
    ensures EvalSeqFrom(es, i, acc, vars, funs, more) == EvalSeqFrom(es, i, acc, vars, funs, fuel)
  {
    if i < |es| {
      assert es[i..][0] == es[i] && es[i..][1..] == es[i + 1..];
      var h := Eval(es[i], vars, funs, fuel);
      MoreFuelSameEval(es[i], vars, funs, fuel, more);
      if h.outcome.Ok? {
        MoreFuelSameSeq(es, i + 1, acc + [h.outcome.value], vars, h.funs, fuel, more);
      }
    }
  }

  lemma {:induction false} MoreFuelSameCall(f: Function, args: seq<Expression>, callerVars: Vars, fuel: nat, more: nat)
    requires fuel <= more && CallFn(f, args, callerVars, fuel) != Fails(OutOfFuel)
    decreases fuel, 2, 0, 0
    ensures CallFn(f, args, callerVars, more) == CallFn(f, args, callerVars, fuel)
  {
    if |args| == |f.parameters| {
      MoreFuelSameBind(f, args, 0, callerVars, map[], fuel, more);
    }
  }

  lemma {:induction false} MoreFuelSameBind(f: Function, args: seq<Expression>, i: nat, vars: Vars, funs: Funs,
                                            fuel: nat, more: nat)
    requires |args| == |f.parameters| && i <= |args| && fuel <= more
    requires BindFrom(f, args, i, vars, funs, fuel) != Fails(OutOfFuel)
    decreases fuel, 1, |args| - i + 1, 0
    ensures BindFrom(f, args, i, vars, funs, more) == BindFrom(f, args, i, vars, funs, fuel)
  {
    if i == |args| {
      MoreFuelSameRun(f, 0, vars, funs, fuel, more);
    } else {
      var a := Eval(args[i], vars, funs, fuel);
      MoreFuelSameEval(args[i], vars, funs, fuel, more);
      if a.outcome.Ok? {
        MoreFuelSameBind(f, args, i + 1, vars[f.parameters[i].name := a.outcome.value], a.funs, fuel, more);
      }
    }
  }

  lemma {:induction false} MoreFuelSameRun(f: Function, i: nat, vars: Vars, funs: Funs, fuel: nat, more: nat)
    requires i <= |f.body.statements| && fuel <= more
    requires RunDecls(f, i, vars, funs, fuel) != Fails(OutOfFuel)
    decreases fuel, 1, 0, |f.body.statements| - i
    ensures RunDecls(f, i, vars, funs, more) == RunDecls(f, i, vars, funs, fuel)
  {
    if i == |f.body.statements| {
      MoreFuelSameEval(f.body.returnExpr, vars, funs, fuel, more);
    } else {
      match f.body.statements[i]
      case VariableDeclaration(name, e) =>
        var h := Eval(e, vars, funs, fuel);
        MoreFuelSameEval(e, vars, funs, fuel, more);
        if h.outcome.Ok? {
          MoreFuelSameRun(f, i + 1, vars[name := h.outcome.value], h.funs, fuel, more);
        }
      case _ =>
        MoreFuelSameRun(f, i + 1, vars, funs, fuel, more);
    }
  }
}
