/**
 * What follows from the declaration-only copies (genv/src/111.rs, genv/src/vm): their
 * parser yields nothing but declarations, and since a variable evaluates to itself
 * no evaluation ever reads the variable table, so a function's result does not
 * depend on its arguments or on the caller's variables.
 */
module DeclarationFacts {
  import opened Text
  import opened Ast
  import Semantics
  import opened Parser
  import opened DeclarationOnly
  import Runner

  /** The statements the declaration-only parser returns are all declarations, which
      is what `Function::call` and `Statement::execute` of these copies handle. */
  lemma {:induction false} ParsedStatementsAreDeclarations(input: string, pos: nat)
    requires pos <= |input|
    requires ParseStatements(Decl, input, pos).Done?
    ensures AllDeclarations(ParseStatements(Decl, input, pos).value)
    decreases |input| - pos
  {
    var q0 := Skip0(Multispace, input, pos);
    match ParseStatement(Decl, input, q0)
    case Fail =>
    case Cut =>
    case Done(st, q) =>
      if q != pos {
        ParsedStatementsAreDeclarations(input, q);
        var sts := ParseStatements(Decl, input, q).value;
        assert ParseStatements(Decl, input, pos).value == [st] + sts;
        assert st.VariableDeclaration?;
      }
  }

  /** Evaluation never reads the variable table: two tables give the same outcome
      and the same function table. */
  lemma {:induction false} EvalIgnoresVariables(k: Arithmetic, e: Expression, v1: Semantics.Vars, v2: Semantics.Vars, funs: Semantics.Funs)
    ensures Eval(k, e, v1, funs) == Eval(k, e, v2, funs)
    decreases ExprSize(e), 0
  {
    match e
    case Atom(_) =>
    case BinaryOperation(_, left, right) =>
      EvalIgnoresVariables(k, left, v1, v2, funs);
      EvalIgnoresVariables(k, right, v1, v2, Eval(k, left, v1, funs).funs);
    case Function(_) =>
    case Tuple(items) =>
      SeqIgnoresVariables(k, items, 0, [], v1, v2, funs);
    case _ =>
  }

  /** The same for the elements of a tuple from `i` on. */
  lemma {:induction false} SeqIgnoresVariables(k: Arithmetic, es: seq<Expression>, i: nat, acc: seq<Expression>,
                                               v1: Semantics.Vars, v2: Semantics.Vars, funs: Semantics.Funs)
    requires i <= |es|
    ensures EvalSeqFrom(k, es, i, acc, v1, funs) == EvalSeqFrom(k, es, i, acc, v2, funs)
    decreases ListSize(es[i..]), 1
  {
    if i < |es| {
      assert es[i..][0] == es[i] && es[i..][1..] == es[i + 1..];
      EvalIgnoresVariables(k, es[i], v1, v2, funs);
      var h := Eval(k, es[i], v1, funs);
      if h.outcome.Ok? {
        SeqIgnoresVariables(k, es, i + 1, acc + [h.outcome.value], v1, v2, h.funs);
      }
    }
  }

  /** Running declarations from two variable tables stops at the same statement, with
      the same failure and the same function table. */
  lemma {:induction false} ExecIgnoresVariables(k: Arithmetic, stmts: seq<Statement>, i: nat, v1: Semantics.Vars, v2: Semantics.Vars, funs: Semantics.Funs)
    requires i <= |stmts| && AllDeclarations(stmts)
    ensures ExecFrom(k, stmts, i, v1, funs).failure == ExecFrom(k, stmts, i, v2, funs).failure
    ensures ExecFrom(k, stmts, i, v1, funs).funs == ExecFrom(k, stmts, i, v2, funs).funs
    decreases |stmts| - i
  {
    if i < |stmts| {
      EvalIgnoresVariables(k, stmts[i].value, v1, v2, funs);
      var h := Eval(k, stmts[i].value, v1, funs);
      if h.outcome.Ok? {
        ExecIgnoresVariables(k, stmts, i + 1, v1[stmts[i].name := h.outcome.value],
                             v2[stmts[i].name := h.outcome.value], h.funs);
      }
    }
  }

  /** A function's result depends only on its definition, the number of arguments and
      the caller's function table: the parameters are bound but never read. */
  lemma ParametersAreNeverRead(k: Arithmetic, f: Function, a1: seq<Expression>, a2: seq<Expression>,
                               v1: Semantics.Vars, v2: Semantics.Vars, funs: Semantics.Funs)
    requires AllDeclarations(f.body.statements)
    requires |a1| == |a2|
    ensures CallFn(k, f, a1, v1, funs) == CallFn(k, f, a2, v2, funs)
  {
    if |a1| == |f.parameters| {
      var names := seq(|f.parameters|, i requires 0 <= i < |f.parameters| => f.parameters[i].name);
      var b1 := Runner.BindNames(v1, names, a1, 0);
      var b2 := Runner.BindNames(v2, names, a2, 0);
      ExecIgnoresVariables(k, f.body.statements, 0, b1, b2, funs);
      var t1 := ExecFrom(k, f.body.statements, 0, b1, funs);
      var t2 := ExecFrom(k, f.body.statements, 0, b2, funs);
      EvalIgnoresVariables(k, f.body.returnExpr, t1.vars, t2.vars, t1.funs);
    }
  }

  /** `fn id(x) => x` gives back the variable `x` itself, whatever it is called with. */
  lemma IdentityReturnsItsParameterName(k: Arithmetic, f: Function, arg: Expression, vars: Semantics.Vars, funs: Semantics.Funs)
    requires |f.parameters| == 1 && f.body.statements == [] && f.body.returnExpr == Var(f.parameters[0].name)
    ensures CallFn(k, f, [arg], vars, funs) == Semantics.Ok(Var(f.parameters[0].name))
  {
  }
}
