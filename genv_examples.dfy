/**
 * The unit tests of the `genv` calculator (genv/src/ast/parser_test.rs,
 * engine_test.rs and vm_test.rs) as lemmas and methods about the model.
 */
module GenvExamples {
  import opened Text
  import opened Results
  import opened GenvLexer
  import opened GenvParser
  import opened GenvEngine
  import opened GenvVm

  /** The tokens of `a = 1; b = a + 2;`, as the parser test writes them out. */
  function ScriptTokens(): seq<Token> {
    [Identifier("a"), Assign, Token.Number(1), Semicolon, Identifier("b"), Assign, Identifier("a"), Plus, Token.Number(2), Semicolon]
  }

  /** The two assignments the parser test expects. */
  function ScriptExprs(): seq<Expr> {
    [Assignment("a", Expr.Number(1)), Assignment("b", BinaryOp(Variable("a"), Add, Expr.Number(2)))]
  }

  /** The parser test: the tokens parse to the two assignments. */
  lemma ParserTest(tokens: seq<Token>)
    requires tokens == ScriptTokens()
    ensures Parse(tokens) == Ok(ScriptExprs())
  {
    var e := ScriptExprs();
    assert ExprAt(tokens, 2) == Parsed(Expr.Number(1), 3);
    assert ExprAt(tokens, 0) == Parsed(e[0], 3);
    assert PrimaryAt(tokens, 6) == Parsed(Variable("a"), 7);
    assert ExprAt(tokens, 6) == Parsed(e[1].value, 9);
    assert ExprAt(tokens, 4) == Parsed(e[1], 9);
    assert [] + [e[0]] == [e[0]] && [e[0]] + [e[1]] == e;
    assert ParseFrom(tokens, 10, e) == Ok(e);
    assert ParseFrom(tokens, 4, [e[0]]) == ParseFrom(tokens, 10, e);
    assert ParseFrom(tokens, 0, []) == ParseFrom(tokens, 4, [e[0]]);
  }

  /** The engine test: after the two assignments `b` is 3. */
  lemma EngineTest(exprs: seq<Expr>)
    requires exprs == ScriptExprs()
    ensures EvaluateFrom(exprs, 0, map[]) == Run(None, map["a" := 1, "b" := 3])
  {
    assert Eval(exprs[0], map[]) == Evaluated(Value(1), map["a" := 1]);
    assert Eval(exprs[1], map["a" := 1]) == Evaluated(Value(3), map["a" := 1, "b" := 3]);
  }

  /** The engine test through the `Engine` methods. */
  method EngineTestRun() returns (b: Option<Int32>)
    ensures b == Some(3)
  {
    var engine := new Engine();
    EngineTest(ScriptExprs());
    var panic := engine.Evaluate(ScriptExprs());
    b := engine.GetVariable("b");
  }

  /** The VM test: executing `a = 1; b = a + 2;` on a new VM binds `b` to 3. */
  lemma VmTest(s: string)
    requires s == "a = 1; b = a + 2;"
    ensures ExecuteScript(s, map[]) == Run(None, map["a" := 1, "b" := 3])
  {
    ScriptTokenizes(s);
    ParserTest(ScriptTokens());
    EngineTest(ScriptExprs());
  }

  /** The VM test through the `VM` methods. */
  method VmTestRun(s: string) returns (b: Option<Int32>)
    requires s == "a = 1; b = a + 2;"
    ensures b == Some(3)
  {
    var vm := new VM();
    VmTest(s);
    var panic := vm.Execute(s);
    b := vm.GetVariable("b");
  }

  lemma ScriptTokenizes(s: string)
    requires s == "a = 1; b = a + 2;"
    ensures Tokenize(s) == Lexed(ScriptTokens(), 17)
  {
    var t := ScriptTokens();
    assert [] + [t[0]] == t[..1];
    assert t[..1] + [t[1]] == t[..2];
    assert t[..2] + [t[2]] == t[..3];
    assert t[..3] + [t[3]] == t[..4];
    assert t[..4] + [t[4]] == t[..5];
    assert t[..5] + [t[5]] == t[..6];
    assert t[..6] + [t[6]] == t[..7];
    assert t[..7] + [t[7]] == t[..8];
    assert t[..8] + [t[8]] == t[..9];
    assert t[..9] + [t[9]] == t[..10];
    assert t[..10] == t;
    AssignmentHead(s);
    TokenizeStep(s, 0, [], Identifier("a"), 1);
    TokenizeStep(s, 1, t[..1], Assign, 3);
    ScriptToken3(s);
    TokenizeStep(s, 3, t[..2], Token.Number(1), 5);
    ScriptToken5(s);
    TokenizeStep(s, 5, t[..3], Semicolon, 6);
    ScriptToken6(s);
    TokenizeStep(s, 6, t[..4], Identifier("b"), 8);
    ScriptToken8(s);
    TokenizeStep(s, 8, t[..5], Assign, 10);
    ScriptToken10(s);
    TokenizeStep(s, 10, t[..6], Identifier("a"), 12);
    ScriptToken12(s);
    TokenizeStep(s, 12, t[..7], Plus, 14);
    ScriptToken14(s);
    TokenizeStep(s, 14, t[..8], Token.Number(2), 16);
    ScriptToken16(s);
    TokenizeStep(s, 16, t[..9], Semicolon, 17);
    ScriptEnd(s, t);
  }

  lemma ScriptToken3(s: string)
    requires s == "a = 1; b = a + 2;"
    ensures NextToken(s, 3) == Lexed(Token.Number(1), 5)
  {
    SpanExact(Multispace, s, 3, 4);
    SpanExact(Digit, s, 4, 5);
    assert DigitsValue(s, 4, 5) == 1;
  }

  lemma ScriptToken5(s: string)
    requires s == "a = 1; b = a + 2;"
    ensures NextToken(s, 5) == Lexed(Semicolon, 6)
  {
    SpanExact(Multispace, s, 5, 5);
  }

  lemma ScriptToken6(s: string)
    requires s == "a = 1; b = a + 2;"
    ensures NextToken(s, 6) == Lexed(Identifier("b"), 8)
  {
    SpanExact(Multispace, s, 6, 7);
    SpanExact(Alpha, s, 7, 8);
    assert s[7..8] == "b";
  }

  lemma ScriptToken8(s: string)
    requires s == "a = 1; b = a + 2;"
    ensures NextToken(s, 8) == Lexed(Assign, 10)
  {
    SpanExact(Multispace, s, 8, 9);
  }

  lemma ScriptToken10(s: string)
    requires s == "a = 1; b = a + 2;"
    ensures NextToken(s, 10) == Lexed(Identifier("a"), 12)
  {
    SpanExact(Multispace, s, 10, 11);
    SpanExact(Alpha, s, 11, 12);
    assert s[11..12] == "a";
  }

  lemma ScriptToken12(s: string)
    requires s == "a = 1; b = a + 2;"
    ensures NextToken(s, 12) == Lexed(Plus, 14)
  {
    SpanExact(Multispace, s, 12, 13);
  }

  lemma ScriptToken14(s: string)
    requires s == "a = 1; b = a + 2;"
    ensures NextToken(s, 14) == Lexed(Token.Number(2), 16)
  {
    SpanExact(Multispace, s, 14, 15);
    SpanExact(Digit, s, 15, 16);
    assert DigitsValue(s, 15, 16) == 2;
  }

  lemma ScriptToken16(s: string)
    requires s == "a = 1; b = a + 2;"
    ensures NextToken(s, 16) == Lexed(Semicolon, 17)
  {
    SpanExact(Multispace, s, 16, 16);
  }

  lemma ScriptEnd(s: string, t: seq<Token>)
    requires s == "a = 1; b = a + 2;"
    ensures TokenizeFrom(s, 17, t) == Lexed(t, 17)
  {
    SpanExact(Multispace, s, 17, 17);
  }
}
