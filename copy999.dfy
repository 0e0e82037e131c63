/**
 * genv/src/999.rs, a single-file copy of the `src/` core. Its `Context` is the
 * `Scope` of module Scopes, its `evaluate` and `Function::call` are those of module
 * Semantics, and its `run_ast` is the two-pass runner of module Runner. The one
 * difference is its parser: `parse_expression` has no `import` and no method call
 * alternative (the Copy999 dialect of module Parser).
 */
module Copy999 {
  import opened Text
  import opened Ast
  import opened Parser
  import opened ParserFacts
  import opened Scopes
  import opened Semantics
  import Runner

  /** `Context::run_ast`: parse with this copy's grammar, then run on a fresh local
      context; the receiver is not used. */
  function RunAst(code: string, fuel: nat): (r: Outcome<Vars>)
    ensures ParseStatements(Copy999, code, 0) == Done([], 0) ==> r == Fails(Error("No statements parsed"))
  {
    match ParseStatements(Copy999, code, 0)
    case Done(stmts, _) =>
      if stmts == [] then Fails(Error("No statements parsed"))
      else
        var x := Runner.RunFrom(stmts, 0, map[], Runner.RegisterFrom(stmts, 0, map[]), fuel);
        if x.failure.Some? then Fails(x.failure.value) else Ok(x.vars)
    case _ => Fails(Error(Runner.ParseErrorPrefix))
  }

  /** The two `for` loops of `run_ast` on `local_context`. */
  method RunOnLocalContext(code: string, fuel: nat) returns (r: Outcome<Vars>)
    ensures r == RunAst(code, fuel)
  {
    var parsed := ParseStatements(Copy999, code, 0);
    if !parsed.Done? {
      return Fails(Error(Runner.ParseErrorPrefix));
    }
    var stmts := parsed.value;
    if stmts == [] {
      return Fails(Error("No statements parsed"));
    }
    var local := new Scope();
    Runner.RegisterDefinitions(stmts, local);
    var failure := Runner.ExecuteAll(stmts, local, fuel);
    if failure.Some? {
      return Fails(failure.value);
    }
    r := Ok(local.variables);
  }

  // ---------------------------------------------------------------- the grammar

  /** Without the two alternatives, no expression of this copy is a method call. */
  lemma NoMethodCalls(input: string, pos: nat)
    requires pos <= |input|
    requires ParseExpression(Copy999, input, pos).Done?
    ensures !ParseExpression(Copy999, input, pos).value.MethodCall?
  {
    var r := ParseExpression(Copy999, input, pos);
    if ParseFunctionLiteral(Copy999, input, pos).Done? {
      assert r.value.Function?;
    } else if ParseBinaryOperation(input, pos).Done? {
      assert r.value.BinaryOperation?;
    } else if ParseTuple(Copy999, input, pos).Done? {
      assert r.value.Tuple?;
    } else if ParseFunctionCall(Copy999, input, pos).Done? {
      assert r.value.FunctionCall?;
    } else {
      assert r.value.Atom?;
    }
  }

  /** `important` is not followed by `(`, so it is no call. */
  lemma ImportantIsNoCall(s: string)
    requires s == "important"
    ensures ParseFunctionCall(Copy999, s, 0).Fail?
  {
    SpanExact(Alpha, s, 0, 9);
    assert ParseIdentifier(s, 0).pos == 9;
    assert ParseDelimitedList(Copy999, '(', MultiComma, ')', s, 9).Fail?;
  }

  /** `important` is a plain variable to this parser. */
  lemma ImportantIn999(s: string)
    requires s == "important"
    ensures ParseExpression(Copy999, s, 0) == Done(Var("important"), 9)
  {
    FunctionLiteralNeedsParameters(Copy999, s, 0, 9);
    ImportantIsAVariable(s);
    OperatorNeeded(s, 0);
    ImportantIsNoCall(s);
    NoTupleWithoutBracket(s, 0);
    AtomIsTheLastResort(s, 0);
  }

  /** A text that does not start with `[` is no tuple. */
  lemma NoTupleWithoutBracket(input: string, pos: nat)
    requires pos < |input| && input[pos] != '['
    ensures ParseTuple(Copy999, input, pos).Fail?
  {
  }

  /** When no other alternative of this copy's `parse_expression` matches, the
      expression is whatever `parse_atom` makes of the text. */
  lemma AtomIsTheLastResort(input: string, pos: nat)
    requires pos <= |input|
    requires ParseFunctionLiteral(Copy999, input, pos).Fail? && ParseBinaryOperation(input, pos).Fail?
    requires ParseTuple(Copy999, input, pos).Fail? && ParseFunctionCall(Copy999, input, pos).Fail?
    ensures ParseExpression(Copy999, input, pos) == ParseAtom(input, pos)
  {
  }

  /** The same text is the method call `import ant` to the `src/` parser. */
  lemma ImportantInSrc(s: string)
    requires s == "important"
    ensures ParseExpression(Copy999, s, 0) != ParseExpression(Src, s, 0)
  {
    ImportantIn999(s);
    ImportNeedsNoBoundary(s);
  }

  /** A digit run followed by neither a `.`, an exponent marker nor another digit is
      a `Double` atom: `double` comes before `i64`. */
  lemma DigitsAreADouble(input: string, pos: nat, end: nat)
    requires pos < end <= |input|
    requires forall i :: pos <= i < end ==> IsDigit(input[i])
    requires end == |input| || (!IsDigit(input[end]) && input[end] !in ".eE")
    ensures ParseAtom(input, pos) == Done(Dbl(input[pos..end]), end)
  {
    SpanExact(Digit, input, pos, end);
    assert MantissaEnd(input, pos) == Some(end);
    assert RecognizeFloat(input, pos) == Done(input[pos..end], end);
    FirstCharMismatch(input, pos, "true");
    FirstCharMismatch(input, pos, "false");
  }

  /** A number argument, ended by `,` or `)`. */
  lemma NumberArgument(input: string, pos: nat, end: nat)
    requires pos < end < |input|
    requires forall i :: pos <= i < end ==> IsDigit(input[i])
    requires input[end] == ',' || input[end] == ')'
    ensures ParseExpression(Copy999, input, pos) == Done(Dbl(input[pos..end]), end)
  {
    DigitsAreADouble(input, pos, end);
    NoOperatorAtSeparator(input, end);
    AtomWithoutOperator(input, pos);
    NumberIsNoName(input, pos);
    AtomIsTheLastResort(input, pos);
  }

  /** No operator starts at a `,` or a `)`, nor after the blanks before one. */
  lemma NoOperatorAtSeparator(input: string, end: nat)
    requires end < |input| && (input[end] == ',' || input[end] == ')')
    ensures ParseBinaryOperator(input, Skip0(Multispace, input, end)).Fail?
  {
    assert Skip0(Multispace, input, end) == end;
    Mismatch(input, end, "==", 0);
    Mismatch(input, end, "!=", 0);
  }

  /** An atom not followed by an operator is no binary operation. */
  lemma AtomWithoutOperator(input: string, pos: nat)
    requires pos <= |input| && ParseAtom(input, pos).Done?
    requires ParseBinaryOperator(input, Skip0(Multispace, input, ParseAtom(input, pos).pos)).Fail?
    ensures ParseBinaryOperation(input, pos).Fail?
  {
  }

  /** What starts with a digit is neither a function literal, a tuple nor a call. */
  lemma NumberIsNoName(input: string, pos: nat)
    requires pos < |input| && IsDigit(input[pos])
    ensures ParseFunctionLiteral(Copy999, input, pos).Fail?
    ensures ParseTuple(Copy999, input, pos).Fail? && ParseFunctionCall(Copy999, input, pos).Fail?
  {
    assert ParseIdentifier(input, pos).Fail?;
  }

  /** After the `5` of `fun(8, 5)` the list ends. */
  lemma MainArgumentsEnd(s: string)
    requires s == "fun(8, 5)"
    ensures ParseExpressionListTail(Copy999, MultiComma, s, 8) == Done([], 8)
  {
    SpanExact(Multispace, s, 8, 8);
    assert SkipSeparator(MultiComma, s, 8) == None;
  }

  /** `, 5` of `fun(8, 5)`. */
  lemma MainSecondArgument(s: string)
    requires s == "fun(8, 5)"
    ensures ParseExpressionListTail(Copy999, MultiComma, s, 5) == Done([Dbl("5")], 8)
  {
    MainSeparator(s);
    MainSecondNumber(s);
    MainArgumentsEnd(s);
    TailCons(Copy999, MultiComma, s, 5, 7, Dbl("5"), 8, [], 8);
    assert [Dbl("5")] + [] == [Dbl("5")];
  }

  /** The separator `, ` of `fun(8, 5)`. */
  lemma MainSeparator(s: string)
    requires s == "fun(8, 5)"
    ensures SkipSeparator(MultiComma, s, 5) == Some(7)
  {
    SpanExact(Multispace, s, 5, 5);
    SpanExact(Multispace, s, 6, 7);
  }

  /** The `5` of `fun(8, 5)`. */
  lemma MainSecondNumber(s: string)
    requires s == "fun(8, 5)"
    ensures ParseExpression(Copy999, s, 7) == Done(Dbl("5"), 8)
  {
    assert s[7..8] == "5";
    NumberArgument(s, 7, 8);
  }

  /** A separator and an element, then the rest of the list. */
  lemma TailCons(d: Dialect, sep: Separator, input: string, pos: nat, q: nat, e: Expression, q2: nat,
                 es: seq<Expression>, q3: nat)
    requires pos <= q <= |input| && q2 <= |input|
    requires SkipSeparator(sep, input, pos) == Some(q)
    requires ParseExpression(d, input, q) == Done(e, q2)
    requires ParseExpressionListTail(d, sep, input, q2) == Done(es, q3)
    ensures ParseExpressionListTail(d, sep, input, pos) == Done([e] + es, q3)
  {
  }

  /** The `8` of `fun(8, 5)`. */
  lemma MainFirstArgument(s: string)
    requires s == "fun(8, 5)"
    ensures ParseExpression(Copy999, s, 4) == Done(Dbl("8"), 5)
  {
    assert s[4..5] == "8";
    NumberArgument(s, 4, 5);
  }

  /** A list is its first element followed by the rest. */
  lemma ListCons(d: Dialect, sep: Separator, input: string, pos: nat, e: Expression, q: nat,
                 es: seq<Expression>, q2: nat)
    requires pos <= q <= |input|
    requires ParseExpression(d, input, pos) == Done(e, q)
    requires ParseExpressionListTail(d, sep, input, q) == Done(es, q2)
    ensures ParseExpressionList(d, sep, input, pos) == Done([e] + es, q2)
  {
  }

  /** `8, 5` of `fun(8, 5)`. */
  lemma MainArgumentList(s: string)
    requires s == "fun(8, 5)"
    ensures ParseExpressionList(Copy999, MultiComma, s, 4) == Done([Dbl("8"), Dbl("5")], 8)
  {
    MainFirstArgument(s);
    MainSecondArgument(s);
    ListCons(Copy999, MultiComma, s, 4, Dbl("8"), 5, [Dbl("5")], 8);
    Pair(Dbl("8"), Dbl("5"));
  }

  lemma Pair(a: Expression, b: Expression)
    ensures [a] + [b] == [a, b]
  {
  }

  /** A delimited list is its opening character, its list and its closing character. */
  lemma Delimited(d: Dialect, open: char, sep: Separator, close: char, input: string, pos: nat,
                  es: seq<Expression>, q: nat)
    requires pos < q < |input| && At(input, pos, open) && At(input, q, close)
    requires ParseExpressionList(d, sep, input, pos + 1) == Done(es, q)
    ensures ParseDelimitedList(d, open, sep, close, input, pos) == Done(es, q + 1)
  {
  }

  /** `fun` is not a function literal: a parameter list cannot start with `8`. */
  lemma MainCallIsNoLiteral(s: string)
    requires s == "fun(8, 5)"
    ensures ParseFunctionLiteral(Copy999, s, 0).Fail?
  {
    MainCallShape(s);
    ParametersNeedAName(Copy999, s, 3);
    NoLiteralWithoutParameters(Copy999, s, 0);
  }

  /** A parameter list whose `(` is followed by neither a letter nor `)` fails. */
  lemma ParametersNeedAName(d: Dialect, input: string, p: nat)
    requires p + 1 < |input| && input[p] == '('
    requires !IsAlpha(input[p + 1]) && input[p + 1] != ')'
    ensures ParseParameterList(d, input, p).Fail?
  {
    assert ParseParameter(d, input, p + 1).Fail?;
  }

  /** A name without a parameter list is no function literal. */
  lemma NoLiteralWithoutParameters(d: Dialect, input: string, pos: nat)
    requires pos <= |input| && ParseIdentifier(input, pos).Done?
    requires ParseParameterList(d, input, ParseIdentifier(input, pos).pos).Fail?
    ensures ParseFunctionLiteral(d, input, pos).Fail?
  {
  }

  /** `fun` followed by `(` is not the left operand of a binary operation. */
  lemma MainCallIsNoOperation(s: string)
    requires s == "fun(8, 5)"
    ensures ParseBinaryOperation(s, 0).Fail?
  {
    MainCallHead(s);
    SpanExact(Multispace, s, 3, 3);
    Mismatch(s, 3, "==", 0);
    Mismatch(s, 3, "!=", 0);
    assert ParseBinaryOperator(s, 3).Fail?;
  }

  /** The atom at the start of `fun(8, 5)` is the variable `fun`. */
  lemma MainCallHead(s: string)
    requires s == "fun(8, 5)"
    ensures ParseAtom(s, 0) == Done(Var("fun"), 3)
  {
    Mismatch(s, 0, "true", 0);
    Mismatch(s, 0, "false", 1);
    Mismatch(s, 0, "nan", 0);
    Mismatch(s, 0, "inf", 0);
    VariableAtom(s, 0, 3);
    assert s[0..3] == "fun";
  }

  /** A name directly followed by a delimited argument list is a call. */
  lemma CallAt(d: Dialect, input: string, pos: nat, p: nat, es: seq<Expression>, q: nat)
    requires pos < p < q < |input|
    requires ParseIdentifier(input, pos) == Done(input[pos..p], p)
    requires At(input, p, '(') && At(input, q, ')')
    requires ParseExpressionList(d, MultiComma, input, p + 1) == Done(es, q)
    ensures ParseFunctionCall(d, input, pos) == Done(Expression.FunctionCall(input[pos..p], es), q + 1)
  {
    Delimited(d, '(', MultiComma, ')', input, p, es, q);
  }

  /** In the 999.rs dialect a call is taken once the literal, operation and tuple
      alternatives have failed. */
  lemma CallWins(input: string, pos: nat, call: Expression, q: nat)
    requires pos <= |input|
    requires ParseFunctionLiteral(Copy999, input, pos).Fail?
    requires ParseBinaryOperation(input, pos).Fail?
    requires ParseTuple(Copy999, input, pos).Fail?
    requires ParseFunctionCall(Copy999, input, pos) == Done(call, q)
    ensures ParseExpression(Copy999, input, pos) == Done(call, q)
  {
  }

  /** The shape of `fun(8, 5)`: a name, then parentheses at 3 and 8; no `[`, so no tuple. */
  lemma MainCallShape(s: string)
    requires s == "fun(8, 5)"
    ensures ParseIdentifier(s, 0) == Done(s[0..3], 3) && s[0..3] == "fun"
    ensures At(s, 3, '(') && At(s, 8, ')') && ParseTuple(Copy999, s, 0).Fail?
  {
    SpanExact(Alpha, s, 0, 3);
  }

  /** `main`'s call `fun(8, 5)` passes two `Double`s. */
  lemma MainCallParses(s: string)
    requires s == "fun(8, 5)"
    ensures ParseExpression(Copy999, s, 0) == Done(Expression.FunctionCall("fun", [Dbl("8"), Dbl("5")]), 9)
  {
    MainCallIsNoLiteral(s);
    MainCallIsNoOperation(s);
    MainArgumentList(s);
    MainCallShape(s);
    CallAt(Copy999, s, 0, 3, [Dbl("8"), Dbl("5")], 8);
    CallWins(s, 0, Expression.FunctionCall("fun", [Dbl("8"), Dbl("5")]), 9);
  }

  // ---------------------------------------------------------------- the program of `main`

  /** `fun(x, y) => a = x + y; b = x - y; [a, b]` as `main` writes it. */
  function MainFunction(): Function {
    Func("fun", [Parameter("x", None), Parameter("y", None)],
      Block([VariableDeclaration("a", BinaryOperation(Plus, Var("x"), Var("y"))),
             VariableDeclaration("b", BinaryOperation(Minus, Var("x"), Var("y")))],
            Tuple([Var("a"), Var("b")])))
  }

  function Sum(): Expression { Atom(Double(FloatArith(Plus, FloatLiteral("8"), FloatLiteral("5")))) }
  function Difference(): Expression { Atom(Double(FloatArith(Minus, FloatLiteral("8"), FloatLiteral("5")))) }

  /** The body of `fun` on the bound parameters. */
  lemma MainBody(fuel: nat)
    requires fuel >= 1
    ensures Semantics.RunDecls(MainFunction(), 0, map["x" := Dbl("8"), "y" := Dbl("5")], map[], fuel)
      == Ok(Tuple([Sum(), Difference()]))
  {
    var f := MainFunction();
    var l := map["x" := Dbl("8"), "y" := Dbl("5")];
    assert Semantics.Eval(Var("x"), l, map[], fuel) == Evaluated(Ok(Dbl("8")), map[]);
    assert Semantics.Eval(Var("y"), l, map[], fuel) == Evaluated(Ok(Dbl("5")), map[]);
    var l1 := l["a" := Sum()];
    assert Semantics.Eval(f.body.statements[0].value, l, map[], fuel) == Evaluated(Ok(Sum()), map[]);
    assert l1["x"] == Dbl("8") && l1["y"] == Dbl("5");
    assert Semantics.Eval(Var("x"), l1, map[], fuel) == Evaluated(Ok(Dbl("8")), map[]);
    assert Semantics.Eval(Var("y"), l1, map[], fuel) == Evaluated(Ok(Dbl("5")), map[]);
    var l2 := l1["b" := Difference()];
    assert Semantics.Eval(f.body.statements[1].value, l1, map[], fuel) == Evaluated(Ok(Difference()), map[]);
    assert l2["a"] == Sum() && l2["b"] == Difference();
    assert Semantics.Eval(Var("a"), l2, map[], fuel) == Evaluated(Ok(Sum()), map[]);
    assert Semantics.Eval(Var("b"), l2, map[], fuel) == Evaluated(Ok(Difference()), map[]);
    var items := [Var("a"), Var("b")];
    assert Semantics.EvalSeqFrom(items, 0, [], l2, map[], fuel) == Evaluated(Ok([Sum(), Difference()]), map[]) by {
      assert [] + [Sum()] == [Sum()] && [Sum()] + [Difference()] == [Sum(), Difference()];
      assert Semantics.EvalSeqFrom(items, 2, [Sum(), Difference()], l2, map[], fuel) == Evaluated(Ok([Sum(), Difference()]), map[]);
      assert Semantics.EvalSeqFrom(items, 1, [Sum()], l2, map[], fuel) == Evaluated(Ok([Sum(), Difference()]), map[]);
    }
    assert Semantics.RunDecls(f, 2, l2, map[], fuel) == Ok(Tuple([Sum(), Difference()]));
    assert Semantics.RunDecls(f, 1, l1, map[], fuel) == Ok(Tuple([Sum(), Difference()]));
  }

  /** `fun(8, 5)` returns `[8 + 5, 8 - 5]`, computed on doubles. */
  lemma MainCall(fuel: nat)
    requires fuel >= 1
    ensures Semantics.CallFn(MainFunction(), [Dbl("8"), Dbl("5")], map[], fuel) == Ok(Tuple([Sum(), Difference()]))
  {
    var f := MainFunction();
    var args := [Dbl("8"), Dbl("5")];
    MainBody(fuel);
    assert Semantics.Eval(Dbl("8"), map[], map[], fuel) == Evaluated(Ok(Dbl("8")), map[]);
    assert Semantics.Eval(Dbl("5"), map["x" := Dbl("8")], map[], fuel) == Evaluated(Ok(Dbl("5")), map[]);
    assert map[]["x" := Dbl("8")]["y" := Dbl("5")] == map["x" := Dbl("8"), "y" := Dbl("5")];
    assert Semantics.BindFrom(f, args, 2, map["x" := Dbl("8"), "y" := Dbl("5")], map[], fuel) == Ok(Tuple([Sum(), Difference()]));
    assert Semantics.BindFrom(f, args, 1, map["x" := Dbl("8")], map[], fuel) == Ok(Tuple([Sum(), Difference()]));
    assert Semantics.BindFrom(f, args, 0, map[], map[], fuel) == Ok(Tuple([Sum(), Difference()]));
  }

  /** `[m, n] = fun(8, 5)` binds `m` and `n` to the two doubles. */
  lemma MainDestructures(fuel: nat)
    requires fuel >= 2
    ensures Runner.Step(TupleAssignment(["m", "n"], Expression.FunctionCall("fun", [Dbl("8"), Dbl("5")])),
                        map[], map["fun" := MainFunction()], fuel)
      == Runner.Exec(map["m" := Sum(), "n" := Difference()], map["fun" := MainFunction()], None)
  {
    var funs := map["fun" := MainFunction()];
    var args := [Dbl("8"), Dbl("5")];
    MainCall(fuel - 1);
    assert Semantics.EvalSeqFrom(args, 0, [], map[], funs, fuel) == Evaluated(Ok(args), funs) by {
      assert [] + [Dbl("8")] == [Dbl("8")] && [Dbl("8")] + [Dbl("5")] == args;
      assert Semantics.EvalSeqFrom(args, 2, args, map[], funs, fuel) == Evaluated(Ok(args), funs);
      assert Semantics.EvalSeqFrom(args, 1, [Dbl("8")], map[], funs, fuel) == Evaluated(Ok(args), funs);
    }
    assert Runner.BindNames(map[], ["m", "n"], [Sum(), Difference()], 0) == map["m" := Sum(), "n" := Difference()];
  }
}
