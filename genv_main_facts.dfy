/**
 * Properties of the genv/src/main.rs interpreter (module GenvMain), and the gap
 * between its test `x = math.abs(-1)` and what its parser makes of that text.
 */
module GenvMainFacts {
  import opened Text
  import opened Ast
  import opened Semantics
  import opened Parser
  import opened ParserFacts
  import opened GenvMain
  import Runner

  /** A name without a `.` that names a builtin goes to the builtin, whole: a user
      function called `math` can never be reached. */
  lemma BuiltinShadowsFunction(name: string, args: seq<Expression>, c: Ctx, fuel: nat)
    requires '.' !in name && name in c.builtins
    ensures GenvMain.Eval(Expression.FunctionCall(name, args), c, fuel) == BuiltinCall(c.builtins[name], name, args)
  {
    assert Prefix(name) == name;
  }

  /** So calling `math` itself is the library's not-found error. */
  lemma CallingMathItself(args: seq<Expression>, fuel: nat)
    ensures GenvMain.Eval(Expression.FunctionCall("math", args), NewCtx(), fuel)
      == Fails(Error("Function math not found in math library"))
  {
    MathIsAPlainName("math");
    BuiltinShadowsFunction("math", args, NewCtx(), fuel);
    MathItselfNotFound(args);
  }

  lemma MathIsAPlainName(name: string)
    requires name == "math"
    ensures '.' !in name && name in NewCtx().builtins && NewCtx().builtins[name] == MathLibrary
  {
    assert name == ['m', 'a', 't', 'h'];
  }

  lemma MathItselfNotFound(args: seq<Expression>)
    ensures MathCall("math", args) == Fails(Error("Function math not found in math library"))
  {
    MathIsNotAbs("math");
    NotFoundMessage("math");
  }

  lemma MathIsNotAbs(name: string)
    requires name == "math"
    ensures name != "math.abs"
  {
    assert |name| != |"math.abs"|;
  }

  lemma NotFoundMessage(name: string)
    requires name == "math"
    ensures "Function " + name + " not found in math library" == "Function math not found in math library"
  {
    assert "Function " + name == "Function math";
    assert "Function math" + " not found in math library" == "Function math not found in math library";
  }

  /** `math.abs` is dispatched on the `math` prefix. */
  lemma MathAbsPrefix(name: string)
    requires name == "math.abs"
    ensures Prefix(name) == "math"
  {
    assert name[4] == '.';
    assert Prefix(name[4..]) == [];
    assert Prefix(name[3..]) == "h";
    assert Prefix(name[2..]) == "th";
    assert Prefix(name[1..]) == "ath";
  }

  /** Builtin arguments are passed unevaluated: `0 - 1` is not the integer -1, so
      `math.abs(0 - 1)` is an invalid argument. */
  lemma BuiltinArgumentsUnevaluated(fuel: nat)
    ensures GenvMain.Eval(BinaryOperation(Minus, Int(0), Int(1)), NewCtx(), fuel) == Ok(Int(-1))
    ensures GenvMain.Eval(Expression.FunctionCall("math.abs", [BinaryOperation(Minus, Int(0), Int(1))]), NewCtx(), fuel)
      == Fails(Error("Invalid argument for math.abs"))
  {
    MathAbsPrefix("math.abs");
  }

  /** Variables are not looked up, so `==` compares their names, whatever they hold. */
  lemma VariablesCompareByName(x: string, y: string, c: Ctx, fuel: nat)
    ensures GenvMain.Eval(BinaryOperation(Equal, Var(x), Var(y)), c, fuel) == Ok(Atom(Boolean(x == y)))
  {
  }

  /** A function whose body is a call to itself recurses until the fuel runs out
      (in Rust: until the stack overflows), since the callee's context keeps the caller's functions. */
  lemma {:induction false} SelfCallNeverReturns(f: Function, c: Ctx, fuel: nat)
    requires f.parameters == [] && f.body == Block([], Expression.FunctionCall(f.name, []))
    requires f.name in c.funs && c.funs[f.name] == f && Prefix(f.name) !in c.builtins
    ensures GenvMain.CallFn(f, [], c, fuel) == Fails(OutOfFuel)
  {
    assert Runner.BindNames(c.vars, ParameterNames(f.parameters), [], 0) == c.vars;
    assert c.(vars := c.vars) == c;
    assert GenvMain.EvalSeqFrom([], 0, [], c, fuel) == Ok([]);
    if fuel > 0 {
      SelfCallNeverReturns(f, c, fuel - 1);
    }
  }

  /** A call whose name up to its first `.` names a builtin library goes to that library,
      under its full name and with the arguments unevaluated. */
  lemma BuiltinCallDispatch(name: string, args: seq<Expression>, c: Ctx, fuel: nat)
    requires Prefix(name) in c.builtins
    ensures GenvMain.Eval(Expression.FunctionCall(name, args), c, fuel) == BuiltinCall(c.builtins[Prefix(name)], name, args)
  {
  }

  /** Otherwise a user function of that name is called on the evaluated arguments, in the
      caller's whole context; a failing argument is the result. */
  lemma UserFunctionCall(name: string, args: seq<Expression>, c: Ctx, fuel: nat)
    requires Prefix(name) !in c.builtins && name in c.funs && fuel > 0
    ensures GenvMain.Eval(Expression.FunctionCall(name, args), c, fuel) ==
      match GenvMain.EvalSeqFrom(args, 0, [], c, fuel)
      case Ok(vs) => GenvMain.CallFn(c.funs[name], vs, c, fuel - 1)
      case Fails(why) => Fails(why)
  {
  }

  /** With neither a library nor a function of that name, the call is not found. */
  lemma FunctionNotFound(name: string, args: seq<Expression>, c: Ctx, fuel: nat)
    requires Prefix(name) !in c.builtins && name !in c.funs
    ensures GenvMain.Eval(Expression.FunctionCall(name, args), c, fuel) == Fails(Error("Function '" + name + "' not found"))
  {
  }

  /** `Function::call` works on a clone of the whole context: the callee sees the caller's
      functions and builtins and its variables, with the parameters bound over them. */
  lemma CallSeesCallerTables(f: Function, args: seq<Expression>, c: Ctx, fuel: nat)
    requires |args| == |f.parameters| && f.body.statements == []
    ensures GenvMain.CallFn(f, args, c, fuel) ==
      GenvMain.Eval(f.body.returnExpr, Ctx(Runner.BindNames(c.vars, ParameterNames(f.parameters), args, 0), c.funs, c.builtins), fuel)
  {
  }

  /** Every statement of a body runs, in order: running `s + t` is running `s`, then `t`
      in the context `s` leaves. */
  lemma {:induction false} ExecSequence(s: seq<Statement>, t: seq<Statement>, i: nat, c: Ctx, fuel: nat)
    requires i <= |s|
    decreases |s| - i
    ensures GenvMain.ExecFrom(s + t, i, c, fuel) ==
      match GenvMain.ExecFrom(s, i, c, fuel)
      case Ok(c2) => GenvMain.ExecFrom(t, 0, c2, fuel)
      case Fails(why) => Fails(why)
  {
    if i == |s| {
      ExecShift(s, t, 0, c, fuel);
    } else {
      assert (s + t)[i] == s[i];
      match GenvMain.Exec(s[i], c, fuel)
      case Fails(_) =>
      case Ok(c2) => ExecSequence(s, t, i + 1, c2, fuel);
    }
  }

  /** Running `s + t` from position `|s| + j` is running `t` from `j`. */
  lemma {:induction false} ExecShift(s: seq<Statement>, t: seq<Statement>, j: nat, c: Ctx, fuel: nat)
    requires j <= |t|
    decreases |t| - j
    ensures GenvMain.ExecFrom(s + t, |s| + j, c, fuel) == GenvMain.ExecFrom(t, j, c, fuel)
  {
    if j < |t| {
      assert (s + t)[|s| + j] == t[j];
      match GenvMain.Exec(t[j], c, fuel)
      case Fails(_) =>
      case Ok(c2) => ExecShift(s, t, j + 1, c2, fuel);
    }
  }

  /** The `?` after each body statement: when the statements before position `k` have run
      on the clone and statement `k` fails, the call fails with that statement's failure. */
  lemma BodyFailureFailsCall(f: Function, args: seq<Expression>, c: Ctx, fuel: nat, k: nat)
    requires |args| == |f.parameters| && k < |f.body.statements|
    requires
      var local := Ctx(Runner.BindNames(c.vars, ParameterNames(f.parameters), args, 0), c.funs, c.builtins);
      var before := GenvMain.ExecFrom(f.body.statements[..k], 0, local, fuel);
      before.Ok? && GenvMain.Exec(f.body.statements[k], before.value, fuel).Fails?
    ensures
      var local := Ctx(Runner.BindNames(c.vars, ParameterNames(f.parameters), args, 0), c.funs, c.builtins);
      var before := GenvMain.ExecFrom(f.body.statements[..k], 0, local, fuel);
      GenvMain.CallFn(f, args, c, fuel) == Fails(GenvMain.Exec(f.body.statements[k], before.value, fuel).failure)
  {
    var stmts := f.body.statements;
    var local := Ctx(Runner.BindNames(c.vars, ParameterNames(f.parameters), args, 0), c.funs, c.builtins);
    assert stmts == stmts[..k] + stmts[k..];
    ExecSequence(stmts[..k], stmts[k..], 0, local, fuel);
    assert stmts[k..][0] == stmts[k];
  }

  // ---------------------------------------------------------------- the `math.abs` test

  /** What the parser makes of the test's statement: a declaration of `x` as the bare
      variable `math`, with `.abs(-1)` left unparsed (a name is letters only). */
  lemma MathAbsTestParses(s: string)
    requires s == "x = math.abs(-1)"
    ensures ParseStatement(MainRs, s, 0) == Done(VariableDeclaration("x", Var("math")), 8)
  {
    MathAbsTestHead(s);
    MathIsAVariable(s);
    DeclarationAt(MainRs, s, 0, "x", 1, 2, 4, Var("math"), 8);
  }

  /** `x = ` of the test's statement. */
  lemma MathAbsTestHead(s: string)
    requires s == "x = math.abs(-1)"
    ensures ParseIdentifier(s, 0) == Done("x", 1) && Skip0(Space, s, 1) == 2
    ensures At(s, 2, '=') && Skip0(Space, s, 3) == 4
  {
    MathAbsTestName(s);
    SpanExact(Space, s, 1, 2);
    SpanExact(Space, s, 3, 4);
  }

  lemma MathAbsTestName(s: string)
    requires s == "x = math.abs(-1)"
    ensures ParseIdentifier(s, 0) == Done("x", 1)
  {
    SpanExact(Alpha, s, 0, 1);
    assert s[0..1] == "x";
  }

  /** A name, `=` and an expression make a declaration, the first choice of a statement. */
  lemma DeclarationAt(d: Dialect, input: string, pos: nat, name: string, q: nat, q1: nat, q3: nat,
                      e: Expression, q2: nat)
    requires pos <= |input|
    requires ParseIdentifier(input, pos) == Done(name, q)
    requires Skip0(Space, input, q) == q1 && At(input, q1, '=') && Skip0(Space, input, q1 + 1) == q3
    requires ParseExpression(d, input, q3) == Done(e, q2)
    ensures ParseStatement(d, input, pos) == Done(VariableDeclaration(name, e), q2)
  {
    DeclarationParses(d, input, pos, name, q, q1, q3, e, q2);
    DeclarationWins(d, input, pos);
  }

  lemma DeclarationParses(d: Dialect, input: string, pos: nat, name: string, q: nat, q1: nat, q3: nat,
                          e: Expression, q2: nat)
    requires pos <= |input|
    requires ParseIdentifier(input, pos) == Done(name, q)
    requires Skip0(Space, input, q) == q1 && At(input, q1, '=') && Skip0(Space, input, q1 + 1) == q3
    requires ParseExpression(d, input, q3) == Done(e, q2)
    ensures ParseVariableDeclaration(d, input, pos) == Done(VariableDeclaration(name, e), q2)
  {
    DeclarationShape(d, input, pos, q3);
  }

  lemma DeclarationShape(d: Dialect, input: string, pos: nat, q3: nat)
    requires pos <= |input|
    requires ParseIdentifier(input, pos).Done?
    requires At(input, Skip0(Space, input, ParseIdentifier(input, pos).pos), '=')
    requires Skip0(Space, input, Skip0(Space, input, ParseIdentifier(input, pos).pos) + 1) == q3
    ensures ParseVariableDeclaration(d, input, pos) ==
      match ParseExpression(d, input, q3)
      case Done(e, q2) => Done(VariableDeclaration(ParseIdentifier(input, pos).value, e), q2)
      case Fail => Fail
      case Cut => Cut
  {
  }

  /** A successful declaration is the statement: it is the first choice. */
  lemma DeclarationWins(d: Dialect, input: string, pos: nat)
    requires pos <= |input|
    requires ParseVariableDeclaration(d, input, pos).Done?
    ensures ParseStatement(d, input, pos) == ParseVariableDeclaration(d, input, pos)
  {
  }

  lemma MathIsAVariable(s: string)
    requires s == "x = math.abs(-1)"
    ensures ParseExpression(MainRs, s, 4) == Done(Var("math"), 8)
  {
    MathAtom(s);
    MathNotOperand(s);
    MathNotCalled(s);
    FallsToAtom(s, 4);
  }

  lemma MathAtom(s: string)
    requires s == "x = math.abs(-1)"
    ensures ParseAtom(s, 4) == Done(Var("math"), 8)
  {
    assert s[4..8] == "math";
    PlainVariableAtom(s, 4, 8);
  }

  lemma MathNotOperand(s: string)
    requires s == "x = math.abs(-1)"
    requires ParseAtom(s, 4) == Done(Var("math"), 8)
    ensures ParseBinaryOperation(s, 4).Fail?
  {
    MathDotIsNoOperator(s);
    OperatorMissing(s, 4, Var("math"), 8);
  }

  /** The `.` after `math` is no operator. */
  lemma MathDotIsNoOperator(s: string)
    requires s == "x = math.abs(-1)"
    ensures Skip0(Multispace, s, 8) == 8 && ParseBinaryOperator(s, 8).Fail?
  {
    SpanExact(Multispace, s, 8, 8);
    assert s[8] == '.';
    Mismatch(s, 8, "==", 0);
    Mismatch(s, 8, "!=", 0);
  }

  /** An atom not followed by an operator is no binary operation. */
  lemma OperatorMissing(input: string, pos: nat, a: Expression, q: nat)
    requires pos <= |input|
    requires ParseAtom(input, pos) == Done(a, q)
    requires ParseBinaryOperator(input, Skip0(Multispace, input, q)).Fail?
    ensures ParseBinaryOperation(input, pos).Fail?
  {
  }

  lemma MathNotCalled(s: string)
    requires s == "x = math.abs(-1)"
    ensures ParseFunctionCall(MainRs, s, 4).Fail?
  {
    SpanExact(Alpha, s, 4, 8);
    assert ParseDelimitedList(MainRs, '(', MultiComma, ')', s, 8).Fail?;
  }

  /** In main.rs's grammar, when neither a binary operation nor a call matches and no
      `[` opens a tuple, the expression is an atom. */
  lemma FallsToAtom(input: string, pos: nat)
    requires pos < |input| && input[pos] != '['
    requires ParseBinaryOperation(input, pos).Fail? && ParseFunctionCall(MainRs, input, pos).Fail?
    ensures ParseExpression(MainRs, input, pos) == ParseAtom(input, pos)
  {
    assert ParseTuple(MainRs, input, pos).Fail?;
  }

  /** Executing that declaration binds `x` to the variable atom `math`, not to an
      `Integer`, so the test's `if let Some(Integer(x))` does not match and it panics. */
  lemma MathAbsTestBindsVariable(fuel: nat)
    ensures Exec(VariableDeclaration("x", Var("math")), NewCtx(), fuel)
      == Ok(NewCtx().(vars := map["x" := Var("math")]))
  {
  }

  /** Even a parser that kept `math.abs` whole would read `-1` as a double (`double` is
      tried before `i64`), which `math.abs` rejects. */
  lemma MinusOneIsDouble(s: string)
    requires s == "-1)"
    ensures ParseAtom(s, 0) == Done(Dbl("-1"), 2)
  {
    assert !Matches(s, 0, "true") && !Matches(s, 0, "false");
    SpanExact(Digit, s, 1, 2);
    assert MantissaEnd(s, 1) == Some(2);
    assert s[0..2] == "-1";
  }

  lemma MathAbsRejectsDouble(fuel: nat)
    ensures GenvMain.Eval(Expression.FunctionCall("math.abs", [Dbl("-1")]), NewCtx(), fuel)
      == Fails(Error("Invalid argument for math.abs"))
  {
    MathAbsPrefix("math.abs");
  }

  /** The statement the test means, `x` declared as `math.abs` of the integer -1, binds 1. */
  lemma MathAbsIntended(fuel: nat)
    ensures Exec(VariableDeclaration("x", Expression.FunctionCall("math.abs", [Int(-1)])), NewCtx(), fuel)
      == Ok(NewCtx().(vars := map["x" := Int(1)]))
  {
    MathAbsPrefix("math.abs");
  }
}
