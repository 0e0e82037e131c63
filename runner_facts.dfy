/**
 * Properties of the two-pass runner of src/context/runast.rs.
 */
module RunnerFacts {
  import opened Text
  import opened Ast
  import opened Parser
  import opened Semantics
  import opened Runner
  import opened EvalFacts

  /** The first pass registers every defined name, each under its last definition, and
      keeps every other entry. */
  lemma {:induction false} RegisterFindsEveryDefinition(stmts: seq<Statement>, i: nat, funs: Funs, k: nat)
    requires i <= k < |stmts| && stmts[k].FunctionDefinition?
    requires forall j :: k < j < |stmts| ==> !(stmts[j].FunctionDefinition? && stmts[j].func.name == stmts[k].func.name)
    decreases |stmts| - i
    ensures stmts[k].func.name in RegisterFrom(stmts, i, funs)
    ensures RegisterFrom(stmts, i, funs)[stmts[k].func.name] == stmts[k].func
  {
    var next := if stmts[i].FunctionDefinition? then funs[stmts[i].func.name := stmts[i].func] else funs;
    if i < k {
      RegisterFindsEveryDefinition(stmts, i + 1, next, k);
    } else {
      RegisterKeeps(stmts, i + 1, next, stmts[k].func.name);
    }
  }

  lemma {:induction false} RegisterKeeps(stmts: seq<Statement>, i: nat, funs: Funs, name: string)
    requires i <= |stmts| && name in funs
    requires forall j :: i <= j < |stmts| ==> !(stmts[j].FunctionDefinition? && stmts[j].func.name == name)
    decreases |stmts| - i
    ensures name in RegisterFrom(stmts, i, funs) && RegisterFrom(stmts, i, funs)[name] == funs[name]
  {
    if i < |stmts| {
      var next := if stmts[i].FunctionDefinition? then funs[stmts[i].func.name := stmts[i].func] else funs;
      RegisterKeeps(stmts, i + 1, next, name);
    }
  }

  /** Positional binding: with distinct names, name `k` gets value `k`, and any other
      name keeps its binding. */
  lemma {:induction false} BindNamesPositional(vars: Vars, names: seq<string>, values: seq<Expression>, i: nat, n: string)
    requires |names| == |values| && i <= |names|
    requires forall a, b :: i <= a < b < |names| ==> names[a] != names[b]
    decreases |names| - i
    ensures forall k :: i <= k < |names| && names[k] == n ==>
      n in BindNames(vars, names, values, i) && BindNames(vars, names, values, i)[n] == values[k]
    ensures (forall k :: i <= k < |names| ==> names[k] != n) ==>
      (n in BindNames(vars, names, values, i) <==> n in vars) &&
      (n in vars ==> BindNames(vars, names, values, i)[n] == vars[n])
  {
    if i < |names| {
      BindNamesPositional(vars[names[i] := values[i]], names, values, i + 1, n);
    }
  }

  /** Binding names leaves every name that is not among them as it was. */
  lemma {:induction false} BindNamesKeeps(vars: Vars, names: seq<string>, values: seq<Expression>, i: nat, n: string)
    requires |names| == |values| && i <= |names|
    requires forall j :: i <= j < |names| ==> names[j] != n
    decreases |names| - i
    ensures n in BindNames(vars, names, values, i) <==> n in vars
    ensures n in vars ==> BindNames(vars, names, values, i)[n] == vars[n]
  {
    if i < |names| {
      BindNamesKeeps(vars[names[i] := values[i]], names, values, i + 1, n);
    }
  }

  /** Binding names in order: a name holds the value at its last position. */
  lemma {:induction false} BindNamesLastWins(vars: Vars, names: seq<string>, values: seq<Expression>, i: nat, k: nat)
    requires |names| == |values| && i <= k < |names|
    requires forall j :: k < j < |names| ==> names[j] != names[k]
    decreases |names| - i
    ensures names[k] in BindNames(vars, names, values, i)
    ensures BindNames(vars, names, values, i)[names[k]] == values[k]
  {
    if i == k {
      BindNamesKeeps(vars[names[k] := values[k]], names, values, k + 1, names[k]);
    } else {
      BindNamesLastWins(vars[names[i] := values[i]], names, values, i + 1, k);
    }
  }

  /** A call statement whose function returns, for all inputs: it does not fail; a name
      that is no bare-variable argument keeps its value; when the result is a tuple as
      long as the bare-variable arguments, the `k`-th of them (at its last occurrence)
      holds the `k`-th item; otherwise no variable changes. */
  lemma CallStatementRebinds(name: string, args: seq<Expression>, vars: Vars, funs: Funs, fuel: nat, n: string, k: nat)
    requires name in funs
    requires EvalSeqFrom(args, 0, [], vars, funs, fuel).outcome.Ok?
    requires CallFn(funs[name], EvalSeqFrom(args, 0, [], vars, funs, fuel).outcome.value, vars, fuel).Ok?
    ensures
      var x := Step(Statement.FunctionCall(name, args), vars, funs, fuel);
      var r := CallFn(funs[name], EvalSeqFrom(args, 0, [], vars, funs, fuel).outcome.value, vars, fuel).value;
      var names := BareVariables(args);
      x.failure.None? &&
      (Var(n) !in args ==> (n in x.vars <==> n in vars) && (n in vars ==> x.vars[n] == vars[n])) &&
      (!(r.Tuple? && |names| == |r.items|) ==> x.vars == vars) &&
      (r.Tuple? && |names| == |r.items| && k < |names| && (forall j :: k < j < |names| ==> names[j] != names[k]) ==>
        names[k] in x.vars && x.vars[names[k]] == r.items[k])
  {
    var r := CallFn(funs[name], EvalSeqFrom(args, 0, [], vars, funs, fuel).outcome.value, vars, fuel).value;
    var names := BareVariables(args);
    if r.Tuple? && |names| == |r.items| {
      if Var(n) !in args {
        assert forall j :: 0 <= j < |names| ==> names[j] != n by {
          forall j | 0 <= j < |names| ensures names[j] != n {
            assert names[j] in names;
          }
        }
        BindNamesKeeps(vars, names, r.items, 0, n);
      }
      if k < |names| && (forall j :: k < j < |names| ==> names[j] != names[k]) {
        BindNamesLastWins(vars, names, r.items, 0, k);
      }
    }
  }

  /** Once a statement fails, the statements after it never run: appending statements to
      a failing program changes nothing, and the tables are those left by the statements
      before the failure. */
  lemma {:induction false} FailureStopsTheRun(stmts: seq<Statement>, more: seq<Statement>, i: nat, vars: Vars, funs: Funs, fuel: nat)
    requires i <= |stmts|
    requires RunFrom(stmts, i, vars, funs, fuel).failure.Some?
    decreases |stmts| - i
    ensures RunFrom(stmts + more, i, vars, funs, fuel) == RunFrom(stmts, i, vars, funs, fuel)
  {
    assert (stmts + more)[i] == stmts[i];
    var x := Step(stmts[i], vars, funs, fuel);
    if x.failure.None? {
      FailureStopsTheRun(stmts, more, i + 1, x.vars, x.funs, fuel);
    }
  }

  /** A call may come before the definition it calls, since definitions are registered first. */
  lemma CallBeforeDefinition(f: Function, fuel: nat)
    requires f == Func("f", [], Block([], Int(1)))
    ensures RunFrom([Statement.FunctionCall("f", []), FunctionDefinition(f)], 0, map[],
                    RegisterFrom([Statement.FunctionCall("f", []), FunctionDefinition(f)], 0, map[]), fuel).failure.None?
  {
    var stmts := [Statement.FunctionCall("f", []), FunctionDefinition(f)];
    var funs := RegisterFrom(stmts, 0, map[]);
    assert RegisterFrom(stmts, 2, map["f" := f]) == map["f" := f];
    assert RegisterFrom(stmts, 1, map[]) == map["f" := f];
    assert RunDecls(f, 0, map[], map[], fuel) == Ok(Int(1));
    assert CallFn(f, [], map[], fuel) == Ok(Int(1));
    assert EvalSeqFrom([], 0, [], map[], funs, fuel) == Evaluated(Ok([]), funs);
    var x := Step(stmts[0], map[], funs, fuel);
    assert x == Exec(map[], funs, None);
    assert RunFrom(stmts, 1, map[], funs, fuel).failure.None?;
  }

  /** The arguments `x` and `y` of the swap example evaluate to their bindings. */
  lemma SwapArguments(vars: Vars, funs: Funs, fuel: nat)
    requires vars == map["x" := Int(1), "y" := Int(2)]
    requires fuel >= 1
    ensures EvalSeqFrom([Var("x"), Var("y")], 0, [], vars, funs, fuel) == Evaluated(Ok([Int(1), Int(2)]), funs)
  {
    var args := [Var("x"), Var("y")];
    assert vars["x"] == Int(1) && vars["y"] == Int(2);
    assert Eval(Var("x"), vars, funs, fuel) == Evaluated(Ok(Int(1)), funs);
    assert Eval(Var("y"), vars, funs, fuel) == Evaluated(Ok(Int(2)), funs);
    assert [] + [Int(1)] == [Int(1)] && [Int(1)] + [Int(2)] == [Int(1), Int(2)];
    assert EvalSeqFrom(args, 2, [Int(1), Int(2)], vars, funs, fuel) == Evaluated(Ok([Int(1), Int(2)]), funs);
    assert EvalSeqFrom(args, 1, [Int(1)], vars, funs, fuel) == Evaluated(Ok([Int(1), Int(2)]), funs);
  }

  /** `swap(a, b) => [b, a]` called on 1 and 2 returns `[2, 1]`. */
  lemma SwapReturnsReversed(swap: Function, vars: Vars, fuel: nat)
    requires swap == Func("swap", [Parameter("a", None), Parameter("b", None)], Block([], Tuple([Var("b"), Var("a")])))
    requires vars == map["x" := Int(1), "y" := Int(2)]
    requires fuel >= 1
    ensures CallFn(swap, [Int(1), Int(2)], vars, fuel) == Ok(Tuple([Int(2), Int(1)]))
  {
    var local := vars["a" := Int(1)]["b" := Int(2)];
    assert local["a"] == Int(1) && local["b"] == Int(2);
    assert Eval(Var("a"), local, map[], fuel) == Evaluated(Ok(Int(1)), map[]);
    assert Eval(Var("b"), local, map[], fuel) == Evaluated(Ok(Int(2)), map[]);
    var items := [Var("b"), Var("a")];
    assert EvalSeqFrom(items, 0, [], local, map[], fuel) == Evaluated(Ok([Int(2), Int(1)]), map[]) by {
      assert [] + [Int(2)] == [Int(2)] && [Int(2)] + [Int(1)] == [Int(2), Int(1)];
      assert EvalSeqFrom(items, 2, [Int(2), Int(1)], local, map[], fuel) == Evaluated(Ok([Int(2), Int(1)]), map[]);
      assert EvalSeqFrom(items, 1, [Int(2)], local, map[], fuel) == Evaluated(Ok([Int(2), Int(1)]), map[]);
    }
    assert RunDecls(swap, 0, local, map[], fuel) == Ok(Tuple([Int(2), Int(1)]));
    assert BindFrom(swap, [Int(1), Int(2)], 2, local, map[], fuel) == Ok(Tuple([Int(2), Int(1)]));
    assert BindFrom(swap, [Int(1), Int(2)], 1, vars["a" := Int(1)], map[], fuel) == Ok(Tuple([Int(2), Int(1)]));
    assert BindFrom(swap, [Int(1), Int(2)], 0, vars, map[], fuel) == Ok(Tuple([Int(2), Int(1)]));
  }

  /** An instance of `CallStatementRebinds`: `swap(x, y)` with `swap(a, b) => [b, a]`
      exchanges `x` and `y`. */
  lemma SwapByRebinding(swap: Function, vars: Vars, fuel: nat)
    requires swap == Func("swap", [Parameter("a", None), Parameter("b", None)], Block([], Tuple([Var("b"), Var("a")])))
    requires vars == map["x" := Int(1), "y" := Int(2)]
    requires fuel >= 2
    ensures Step(Statement.FunctionCall("swap", [Var("x"), Var("y")]), vars, map["swap" := swap], fuel)
      == Exec(map["x" := Int(2), "y" := Int(1)], map["swap" := swap], None)
  {
    var args := [Var("x"), Var("y")];
    SwapArguments(vars, map["swap" := swap], fuel);
    SwapReturnsReversed(swap, vars, fuel);
    assert BareVariables(args) == ["x", "y"] by {
      assert BareVariables(args[1..][1..]) == [];
    }
    assert BindNames(vars, ["x", "y"], [Int(2), Int(1)], 0) == map["x" := Int(2), "y" := Int(1)];
  }

  /** A program with no statement is an error, and the scope is left alone. */
  lemma EmptyProgramIsAnError(code: string, vars: Vars, funs: Funs, fuel: nat)
    requires code == ""
    ensures RunScope(code, vars, funs, fuel) == Run(Fails(Error("No statements parsed")), vars, funs)
  {
    assert Skip0(Multispace, code, 0) == 0;
    assert ParseStatement(Src, code, 0).Fail? by {
      assert ParseVariableDeclaration(Src, code, 0).Fail?;
      assert ParseAssignment(Src, code, 0).Fail?;
      assert ParseTupleAssignment(Src, code, 0).Fail?;
      assert ParseFunctionDefinition(Src, code, 0).Fail?;
      assert ParseFunctionCallStatement(Src, code, 0).Fail?;
    }
  }
}
