/**
 * Properties of the `genv` calculator's parser and evaluator that hold for all
 * inputs of a given shape.
 */
module GenvFacts {
  import opened Text
  import opened Results
  import opened GenvLexer
  import opened GenvParser
  import opened GenvEngine

  /** No tokens, no expressions. */
  lemma EmptyParsesToNothing(tokens: seq<Token>)
    requires tokens == []
    ensures Parse(tokens) == Ok([])
  {
  }

  /** A parsed expression takes at most one operator: after `a op b` a second
      operator is where the semicolon must be. */
  lemma ChainedOperatorsNeedSemicolon(a: Int32, b: Int32, c: Int32, op1: Token, op2: Token)
    requires IsOperator(op1) && IsOperator(op2)
    ensures Parse([Token.Number(a), op1, Token.Number(b), op2, Token.Number(c), Semicolon]) == Err("Expected semicolon")
  {
    var tokens := [Token.Number(a), op1, Token.Number(b), op2, Token.Number(c), Semicolon];
    assert BinopAt(tokens, 1).Some?;
    assert ExprAt(tokens, 0) == Parsed(BinaryOp(Expr.Number(a), BinopAt(tokens, 1).value, Expr.Number(b)), 3);
  }

  /** The right side of `x = ...` is an expression of its own, which takes the first
      operator: `x = a + b + c;` is the sum of the assignment `x = a + b` and `c`. */
  lemma AssignmentTakesFirstOperator(x: string, a: Int32, b: Int32, c: Int32)
    ensures Parse([Identifier(x), Assign, Token.Number(a), Plus, Token.Number(b), Plus, Token.Number(c), Semicolon])
      == Ok([BinaryOp(Assignment(x, BinaryOp(Expr.Number(a), Add, Expr.Number(b))), Add, Expr.Number(c))])
  {
    var tokens := [Identifier(x), Assign, Token.Number(a), Plus, Token.Number(b), Plus, Token.Number(c), Semicolon];
    var sum := BinaryOp(Expr.Number(a), Add, Expr.Number(b));
    assert ExprAt(tokens, 2) == Parsed(sum, 5);
    assert PrimaryAt(tokens, 0) == Parsed(Assignment(x, sum), 5);
    var e := BinaryOp(Assignment(x, sum), Add, Expr.Number(c));
    assert ExprAt(tokens, 0) == Parsed(e, 7);
    assert [] + [e] == [e];
    assert ParseFrom(tokens, 8, [e]) == Ok([e]);
  }

  /** An identifier not followed by `=` is a variable read, and then an operator may follow. */
  lemma VariableThenOperator(x: string, n: Int32)
    ensures Parse([Identifier(x), Minus, Token.Number(n), Semicolon])
      == Ok([BinaryOp(Variable(x), Sub, Expr.Number(n))])
  {
    var tokens := [Identifier(x), Minus, Token.Number(n), Semicolon];
    var e := BinaryOp(Variable(x), Sub, Expr.Number(n));
    assert PrimaryAt(tokens, 0) == Parsed(Variable(x), 1);
    assert ExprAt(tokens, 0) == Parsed(e, 3);
    assert [] + [e] == [e];
    assert ParseFrom(tokens, 4, [e]) == Ok([e]);
  }

  /** The left operand is evaluated first: an assignment there is seen by the right. */
  lemma LeftBeforeRight(x: string, n: Int32, op: BinOp, vars: Vars)
    ensures Eval(BinaryOp(Assignment(x, Expr.Number(n)), op, Variable(x)), vars)
      == Evaluated(Apply(op, n, n), vars[x := n])
  {
    assert Eval(Assignment(x, Expr.Number(n)), vars) == Evaluated(Value(n), vars[x := n]);
  }

  /** A panic in the left operand is the result: the right operand is not evaluated. */
  lemma LeftPanicWins(l: Expr, op: BinOp, r: Expr, vars: Vars)
    requires Eval(l, vars).value.Panic?
    ensures Eval(BinaryOp(l, op, r), vars) == Eval(l, vars)
  {
  }

  /** After a left operand that has a value, the right operand is evaluated on the
      table the left one leaves; its panic, or `Apply` of the two values, is the result. */
  lemma RightSeesLeftAssignments(l: Expr, op: BinOp, r: Expr, vars: Vars)
    requires Eval(l, vars).value.Value?
    ensures
      var a := Eval(l, vars);
      var b := Eval(r, a.vars);
      Eval(BinaryOp(l, op, r), vars) ==
        if b.value.Panic? then b else Evaluated(Apply(op, a.value.n, b.value.n), b.vars)
  {
  }

  /** Dividing by a variable never assigned is dividing by zero. */
  lemma UnassignedDivisorPanics(n: Int32, y: string, vars: Vars)
    requires y !in vars
    ensures Eval(BinaryOp(Expr.Number(n), Div, Variable(y)), vars).value == Panic("attempt to divide by zero")
  {
  }

  /** A panic stops `evaluate`: the expressions after it are not evaluated. */
  lemma {:induction false} PanicStopsEvaluation(exprs: seq<Expr>, more: seq<Expr>, i: nat, vars: Vars)
    requires i <= |exprs|
    requires EvaluateFrom(exprs, i, vars).panic.Some?
    decreases |exprs| - i
    ensures EvaluateFrom(exprs + more, i, vars) == EvaluateFrom(exprs, i, vars)
  {
    assert (exprs + more)[i] == exprs[i];
    var a := Eval(exprs[i], vars);
    if a.value.Value? {
      PanicStopsEvaluation(exprs, more, i + 1, a.vars);
    }
  }

  /** Without a panic, `evaluate` over two lists is the second run on the first one's table. */
  lemma {:induction false} EvaluationComposes(exprs: seq<Expr>, more: seq<Expr>, i: nat, vars: Vars)
    requires i <= |exprs|
    requires EvaluateFrom(exprs, i, vars).panic.None?
    decreases |exprs| - i
    ensures EvaluateFrom(exprs + more, i, vars) == EvaluateFrom(more, 0, EvaluateFrom(exprs, i, vars).vars)
  {
    if i == |exprs| {
      EvaluateShift(exprs, more, 0, vars);
    } else {
      assert (exprs + more)[i] == exprs[i];
      EvaluationComposes(exprs, more, i + 1, Eval(exprs[i], vars).vars);
    }
  }

  /** Running the tail of `exprs + more` is running `more` at the shifted index. */
  lemma {:induction false} EvaluateShift(exprs: seq<Expr>, more: seq<Expr>, j: nat, vars: Vars)
    requires j <= |more|
    decreases |more| - j
    ensures EvaluateFrom(exprs + more, |exprs| + j, vars) == EvaluateFrom(more, j, vars)
  {
    if j < |more| {
      assert (exprs + more)[|exprs| + j] == more[j];
      EvaluateShift(exprs, more, j + 1, Eval(more[j], vars).vars);
    }
  }

  // ---------------------------------------------------------------- printing and parsing

  /** The token of an operator. */
  function OperatorToken(op: BinOp): (t: Token)
    ensures IsOperator(t)
  {
    match op
    case Add => Plus
    case Sub => Minus
    case Mul => Multiply
    case Div => Divide
  }

  /** The tokens an expression is written as. */
  function TokensOf(e: Expr): (ts: seq<Token>)
    ensures |ts| > 0
  {
    match e
    case Number(n) => [Token.Number(n)]
    case Variable(name) => [Identifier(name)]
    case BinaryOp(l, op, r) => TokensOf(l) + [OperatorToken(op)] + TokensOf(r)
    case Assignment(name, v) => [Identifier(name), Assign] + TokensOf(v)
  }

  /** The token at `q`, if there is one. */
  function After(tokens: seq<Token>, q: nat): Option<Token> {
    if q < |tokens| then Some(tokens[q]) else None
  }

  /** A primary written out reads back as itself when the token `next` follows it: a
      variable must not be followed by `=`, and an assignment's right side must read
      back. An operation is no primary. */
  predicate PrimaryReadsBack(e: Expr, next: Option<Token>)
    decreases e, 0
  {
    match e
    case Number(_) => true
    case Variable(_) => next != Some(Assign)
    case BinaryOp(_, _, _) => false
    case Assignment(_, v) => ExprReadsBack(v, next)
  }

  /** An expression written out reads back as itself when `next` follows it: an
      operation of two primaries, or a primary that no operator follows. */
  predicate ExprReadsBack(e: Expr, next: Option<Token>)
    decreases e, 1
  {
    if e.BinaryOp? then PrimaryReadsBack(e.lhs, Some(OperatorToken(e.op))) && PrimaryReadsBack(e.rhs, next)
    else PrimaryReadsBack(e, next) && !(next.Some? && IsOperator(next.value))
  }

  /** The two parts of a slice that spells `a + b`. */
  lemma SliceParts<T>(s: seq<T>, pos: nat, a: seq<T>, b: seq<T>)
    requires pos + |a| + |b| <= |s| && s[pos..pos + |a| + |b|] == a + b
    ensures s[pos..pos + |a|] == a && s[pos + |a|..pos + |a| + |b|] == b
  {
    var w := s[pos..pos + |a| + |b|];
    assert s[pos..pos + |a|] == w[..|a|];
    assert s[pos + |a|..pos + |a| + |b|] == w[|a|..];
    assert w[..|a|] == a && w[|a|..] == b;
  }

  /** The operator token reads back as its operator. */
  lemma OperatorTokenReadsBack(tokens: seq<Token>, q: nat, op: BinOp)
    requires q < |tokens| && tokens[q] == OperatorToken(op)
    ensures BinopAt(tokens, q) == Some(op)
  {
  }

  /** `parse_expr` when the primary is followed by an operator and a second primary. */
  lemma ExprAtOperation(tokens: seq<Token>, pos: nat, lhs: Expr, q: nat, op: BinOp, rhs: Expr, q2: nat)
    requires pos <= |tokens| && PrimaryAt(tokens, pos) == Parsed(lhs, q)
    requires BinopAt(tokens, q) == Some(op) && PrimaryAt(tokens, q + 1) == Parsed(rhs, q2)
    ensures ExprAt(tokens, pos) == Parsed(BinaryOp(lhs, op, rhs), q2)
  {
  }

  /** `parse_expr` when no operator follows the primary. */
  lemma ExprAtPrimary(tokens: seq<Token>, pos: nat, p: Expr, q: nat)
    requires pos <= |tokens| && PrimaryAt(tokens, pos) == Parsed(p, q) && BinopAt(tokens, q).None?
    ensures ExprAt(tokens, pos) == Parsed(p, q)
  {
  }

  /** Printing then parsing a primary gives it back, with the cursor after its tokens. */
  lemma {:induction false} PrimaryRoundTrip(tokens: seq<Token>, pos: nat, e: Expr)
    requires pos + |TokensOf(e)| <= |tokens| && tokens[pos..pos + |TokensOf(e)|] == TokensOf(e)
    requires PrimaryReadsBack(e, After(tokens, pos + |TokensOf(e)|))
    decreases e, 0
    ensures PrimaryAt(tokens, pos) == Parsed(e, pos + |TokensOf(e)|)
  {
    assert tokens[pos] == tokens[pos..pos + |TokensOf(e)|][0];
    match e
    case Number(_) =>
    case Variable(_) =>
    case Assignment(name, v) =>
      SliceParts(tokens, pos, [Identifier(name), Assign], TokensOf(v));
      assert tokens[pos + 1] == tokens[pos..pos + 2][1];
      ExprRoundTrip(tokens, pos + 2, v);
  }

  /** Printing then parsing an expression gives it back, with the cursor after its tokens. */
  lemma {:induction false} ExprRoundTrip(tokens: seq<Token>, pos: nat, e: Expr)
    requires pos + |TokensOf(e)| <= |tokens| && tokens[pos..pos + |TokensOf(e)|] == TokensOf(e)
    requires ExprReadsBack(e, After(tokens, pos + |TokensOf(e)|))
    decreases e, 2
    ensures ExprAt(tokens, pos) == Parsed(e, pos + |TokensOf(e)|)
  {
    if e.BinaryOp? {
      OperationRoundTrip(tokens, pos, e.lhs, e.op, e.rhs);
    } else {
      PrimaryOnlyRoundTrip(tokens, pos, e);
    }
  }

  /** `ExprRoundTrip` for an operation: both primaries read back around the operator. */
  lemma {:induction false} OperationRoundTrip(tokens: seq<Token>, pos: nat, lhs: Expr, op: BinOp, rhs: Expr)
    requires
      var ts := TokensOf(BinaryOp(lhs, op, rhs));
      pos + |ts| <= |tokens| && tokens[pos..pos + |ts|] == ts
      && ExprReadsBack(BinaryOp(lhs, op, rhs), After(tokens, pos + |ts|))
    decreases BinaryOp(lhs, op, rhs), 1
    ensures ExprAt(tokens, pos) == Parsed(BinaryOp(lhs, op, rhs), pos + |TokensOf(BinaryOp(lhs, op, rhs))|)
  {
    var q := OperationSpelled(tokens, pos, lhs, op, rhs);
    PrimaryRoundTrip(tokens, pos, lhs);
    PrimaryRoundTrip(tokens, q + 1, rhs);
    ExprAtOperation(tokens, pos, lhs, q, op, rhs, q + 1 + |TokensOf(rhs)|);
  }

  /** `ExprRoundTrip` for a primary: no operator follows it. */
  lemma {:induction false} PrimaryOnlyRoundTrip(tokens: seq<Token>, pos: nat, e: Expr)
    requires !e.BinaryOp? && pos + |TokensOf(e)| <= |tokens| && tokens[pos..pos + |TokensOf(e)|] == TokensOf(e)
    requires ExprReadsBack(e, After(tokens, pos + |TokensOf(e)|))
    decreases e, 1
    ensures ExprAt(tokens, pos) == Parsed(e, pos + |TokensOf(e)|)
  {
    PrimarySpelled(tokens, pos, e);
    PrimaryRoundTrip(tokens, pos, e);
    ExprAtPrimary(tokens, pos, e, pos + |TokensOf(e)|);
  }

  /** Where the parts of an operation written out at `pos` sit, and what follows each. */
  lemma OperationSpelled(tokens: seq<Token>, pos: nat, lhs: Expr, op: BinOp, rhs: Expr) returns (q: nat)
    requires
      var ts := TokensOf(BinaryOp(lhs, op, rhs));
      pos + |ts| <= |tokens| && tokens[pos..pos + |ts|] == ts
      && ExprReadsBack(BinaryOp(lhs, op, rhs), After(tokens, pos + |ts|))
    ensures q == pos + |TokensOf(lhs)| && q + 1 + |TokensOf(rhs)| == pos + |TokensOf(BinaryOp(lhs, op, rhs))|
    ensures pos + |TokensOf(lhs)| <= |tokens| && tokens[pos..pos + |TokensOf(lhs)|] == TokensOf(lhs)
    ensures PrimaryReadsBack(lhs, After(tokens, pos + |TokensOf(lhs)|))
    ensures q + 1 + |TokensOf(rhs)| <= |tokens| && tokens[q + 1..q + 1 + |TokensOf(rhs)|] == TokensOf(rhs)
    ensures PrimaryReadsBack(rhs, After(tokens, q + 1 + |TokensOf(rhs)|))
    ensures BinopAt(tokens, q) == Some(op)
  {
    var a, t, b := TokensOf(lhs), OperatorToken(op), TokensOf(rhs);
    q := pos + |a|;
    SliceParts(tokens, pos, a + [t], b);
    SliceParts(tokens, pos, a, [t]);
    assert tokens[q] == tokens[q..q + 1][0];
    OperatorTokenReadsBack(tokens, q, op);
  }

  /** A primary written out at `pos` that reads back as an expression: no operator
      follows it. */
  lemma PrimarySpelled(tokens: seq<Token>, pos: nat, e: Expr)
    requires !e.BinaryOp? && pos + |TokensOf(e)| <= |tokens|
    requires ExprReadsBack(e, After(tokens, pos + |TokensOf(e)|))
    ensures PrimaryReadsBack(e, After(tokens, pos + |TokensOf(e)|))
    ensures BinopAt(tokens, pos + |TokensOf(e)|).None?
  {
  }

  /** Conversely, a parsed primary is spelled by exactly the tokens it consumed, and
      reads back before the token that follows it. */
  lemma {:induction false} PrimaryIsPrinted(tokens: seq<Token>, pos: nat)
    requires pos <= |tokens| && PrimaryAt(tokens, pos).Parsed?
    decreases |tokens| - pos, 0
    ensures
      var r := PrimaryAt(tokens, pos);
      r.pos == pos + |TokensOf(r.value)| && tokens[pos..r.pos] == TokensOf(r.value)
      && PrimaryReadsBack(r.value, After(tokens, r.pos))
  {
    if pos + 1 < |tokens| && tokens[pos].Identifier? && tokens[pos + 1].Assign? {
      ExprIsPrinted(tokens, pos + 2);
      var q := ExprAt(tokens, pos + 2).pos;
      assert tokens[pos..q] == [tokens[pos], tokens[pos + 1]] + tokens[pos + 2..q];
    } else {
      assert tokens[pos..pos + 1] == [tokens[pos]];
    }
  }

  /** Three consecutive runs of `s` put together. */
  lemma SliceJoin<T>(s: seq<T>, pos: nat, q: nat, q2: nat, a: seq<T>, t: T, b: seq<T>)
    requires pos <= q < q2 <= |s|
    requires s[pos..q] == a && s[q] == t && s[q + 1..q2] == b
    ensures s[pos..q2] == a + [t] + b
  {
    assert s[pos..q2] == s[pos..q] + [s[q]] + s[q + 1..q2];
  }

  /** Conversely, a parsed expression is spelled by exactly the tokens it consumed, and
      reads back before the token that follows it. */
  lemma {:induction false} ExprIsPrinted(tokens: seq<Token>, pos: nat)
    requires pos <= |tokens| && ExprAt(tokens, pos).Parsed?
    decreases |tokens| - pos, 2
    ensures
      var r := ExprAt(tokens, pos);
      r.pos == pos + |TokensOf(r.value)| && tokens[pos..r.pos] == TokensOf(r.value)
      && ExprReadsBack(r.value, After(tokens, r.pos))
  {
    PrimaryIsPrinted(tokens, pos);
    var lhs, q := PrimaryAt(tokens, pos).value, PrimaryAt(tokens, pos).pos;
    if BinopAt(tokens, q).Some? {
      SecondPrimaryIsPrinted(tokens, pos, lhs, q);
    } else {
      PrimaryOnlyIsPrinted(tokens, pos, lhs, q);
    }
  }

  /** The step of `ExprIsPrinted` where an operator follows the first primary. */
  lemma {:induction false} SecondPrimaryIsPrinted(tokens: seq<Token>, pos: nat, lhs: Expr, q: nat)
    requires pos <= |tokens| && ExprAt(tokens, pos).Parsed?
    requires PrimaryAt(tokens, pos) == Parsed(lhs, q) && BinopAt(tokens, q).Some?
    requires q == pos + |TokensOf(lhs)| && tokens[pos..q] == TokensOf(lhs) && PrimaryReadsBack(lhs, After(tokens, q))
    decreases |tokens| - pos, 1
    ensures
      var r := ExprAt(tokens, pos);
      r.pos == pos + |TokensOf(r.value)| && tokens[pos..r.pos] == TokensOf(r.value)
      && ExprReadsBack(r.value, After(tokens, r.pos))
  {
    PrimaryIsPrinted(tokens, q + 1);
    OperationIsPrinted(tokens, pos, lhs, q, BinopAt(tokens, q).value,
                       PrimaryAt(tokens, q + 1).value, PrimaryAt(tokens, q + 1).pos);
  }

  /** The step of `ExprIsPrinted` where no operator follows the primary. */
  lemma PrimaryOnlyIsPrinted(tokens: seq<Token>, pos: nat, p: Expr, q: nat)
    requires pos <= |tokens| && PrimaryAt(tokens, pos) == Parsed(p, q) && BinopAt(tokens, q).None?
    requires q == pos + |TokensOf(p)| && tokens[pos..q] == TokensOf(p) && PrimaryReadsBack(p, After(tokens, q))
    ensures
      var r := ExprAt(tokens, pos);
      r == Parsed(p, q) && ExprReadsBack(r.value, After(tokens, q))
  {
    ExprAtPrimary(tokens, pos, p, q);
  }

  /** The operator step of `ExprIsPrinted`, with both primaries already known printed. */
  lemma OperationIsPrinted(tokens: seq<Token>, pos: nat, lhs: Expr, q: nat, op: BinOp, rhs: Expr, q2: nat)
    requires pos <= |tokens| && PrimaryAt(tokens, pos) == Parsed(lhs, q)
    requires BinopAt(tokens, q) == Some(op) && PrimaryAt(tokens, q + 1) == Parsed(rhs, q2)
    requires q == pos + |TokensOf(lhs)| && tokens[pos..q] == TokensOf(lhs)
    requires q2 == q + 1 + |TokensOf(rhs)| <= |tokens| && tokens[q + 1..q2] == TokensOf(rhs)
    requires PrimaryReadsBack(lhs, After(tokens, q)) && PrimaryReadsBack(rhs, After(tokens, q2))
    ensures
      var r := ExprAt(tokens, pos);
      r == Parsed(BinaryOp(lhs, op, rhs), q2) && tokens[pos..q2] == TokensOf(r.value)
      && ExprReadsBack(r.value, After(tokens, q2))
  {
    ExprAtOperation(tokens, pos, lhs, q, op, rhs, q2);
    assert tokens[q] == OperatorToken(op);
    assert After(tokens, q) == Some(OperatorToken(op));
    SliceJoin(tokens, pos, q, q2, TokensOf(lhs), OperatorToken(op), TokensOf(rhs));
  }

  /** `parse_expr` is the inverse of printing: it gives `e` ending at `q` exactly when
      the tokens from `pos` to `q` spell `e` and `e` reads back before the next token. */
  lemma ExprAtIsReadingBack(tokens: seq<Token>, pos: nat, e: Expr, q: nat)
    requires pos <= |tokens|
    ensures ExprAt(tokens, pos) == Parsed(e, q) <==>
      (q == pos + |TokensOf(e)| <= |tokens| && tokens[pos..q] == TokensOf(e) && ExprReadsBack(e, After(tokens, q)))
  {
    if ExprAt(tokens, pos) == Parsed(e, q) {
      ExprIsPrinted(tokens, pos);
    }
    if q == pos + |TokensOf(e)| <= |tokens| && tokens[pos..q] == TokensOf(e) && ExprReadsBack(e, After(tokens, q)) {
      ExprRoundTrip(tokens, pos, e);
    }
  }

  /** A program written out: each expression followed by `;`. */
  function ProgramTokens(es: seq<Expr>): seq<Token> {
    if es == [] then [] else TokensOf(es[0]) + [Semicolon] + ProgramTokens(es[1..])
  }

  /** Every expression of `es` reads back before a `;`. */
  predicate ReadBackBeforeSemicolons(es: seq<Expr>) {
    es == [] || (ExprReadsBack(es[0], Some(Semicolon)) && ReadBackBeforeSemicolons(es[1..]))
  }

  lemma {:induction false} ReadBackEach(es: seq<Expr>)
    requires forall i :: 0 <= i < |es| ==> ExprReadsBack(es[i], Some(Semicolon))
    ensures ReadBackBeforeSemicolons(es)
  {
    if es != [] {
      assert forall i :: 0 <= i < |es[1..]| ==> es[1..][i] == es[i + 1];
      ReadBackEach(es[1..]);
    }
  }

  /** Printing a program whose expressions read back before `;`, then parsing it, gives
      the program back. */
  lemma ParseProgramTokens(es: seq<Expr>)
    requires forall i :: 0 <= i < |es| ==> ExprReadsBack(es[i], Some(Semicolon))
    ensures Parse(ProgramTokens(es)) == Ok(es)
  {
    var tokens := ProgramTokens(es);
    assert tokens[0..] == tokens;
    ReadBackEach(es);
    ParseFromProgram(tokens, 0, es, []);
    assert [] + es == es;
  }

  /** `parse`'s loop from `pos` over a written-out program collects its expressions. */
  lemma {:induction false} ParseFromProgram(tokens: seq<Token>, pos: nat, es: seq<Expr>, acc: seq<Expr>)
    requires pos <= |tokens| && tokens[pos..] == ProgramTokens(es) && ReadBackBeforeSemicolons(es)
    decreases |es|
    ensures ParseFrom(tokens, pos, acc) == Ok(acc + es)
  {
    if es == [] {
      ParseFromEnd(tokens, pos, acc);
      assert acc + es == acc;
    } else {
      var next := ParseFromFirst(tokens, pos, es, acc);
      ParseFromProgram(tokens, next, es[1..], acc + [es[0]]);
      FirstThenRest(acc, es);
    }
  }

  /** `parse`'s loop ends at the end of the tokens. */
  lemma ParseFromEnd(tokens: seq<Token>, pos: nat, acc: seq<Expr>)
    requires pos <= |tokens| && tokens[pos..] == []
    ensures ParseFrom(tokens, pos, acc) == Ok(acc)
  {
    assert |tokens[pos..]| == 0;
  }

  lemma FirstThenRest<T>(acc: seq<T>, s: seq<T>)
    requires s != []
    ensures acc + [s[0]] + s[1..] == acc + s
  {
    assert [s[0]] + s[1..] == s;
  }

  /** The first round of `parse`'s loop over a written-out program: its first
      expression, then `;`, and the rest of the program behind it. */
  lemma ParseFromFirst(tokens: seq<Token>, pos: nat, es: seq<Expr>, acc: seq<Expr>) returns (next: nat)
    requires pos <= |tokens| && tokens[pos..] == ProgramTokens(es) && es != [] && ReadBackBeforeSemicolons(es)
    ensures next <= |tokens| && tokens[next..] == ProgramTokens(es[1..]) && ReadBackBeforeSemicolons(es[1..])
    ensures ParseFrom(tokens, pos, acc) == ParseFrom(tokens, next, acc + [es[0]])
  {
    var ts, rest := TokensOf(es[0]), ProgramTokens(es[1..]);
    assert tokens[pos..] == ts + [Semicolon] + rest;
    var q := ProgramSlices(tokens, pos, ts, rest);
    next := ExpressionThenSemicolon(tokens, pos, es[0], q, rest, acc);
  }

  /** One written-out expression `e` from `pos` to `q`, then `;`, then `rest`. */
  lemma ExpressionThenSemicolon(tokens: seq<Token>, pos: nat, e: Expr, q: nat, rest: seq<Token>, acc: seq<Expr>)
    returns (next: nat)
    requires q == pos + |TokensOf(e)| < |tokens| && tokens[pos..q] == TokensOf(e) && tokens[q].Semicolon?
    requires tokens[q + 1..] == rest && ExprReadsBack(e, Some(Semicolon))
    ensures next <= |tokens| && tokens[next..] == rest
    ensures ParseFrom(tokens, pos, acc) == ParseFrom(tokens, next, acc + [e])
  {
    assert After(tokens, q) == Some(Semicolon);
    ExprRoundTrip(tokens, pos, e);
    ParseFromStep(tokens, pos, acc, e, q);
    next := q + 1;
  }

  /** Where the parts of a program's text sit when it starts at `pos`: the expression
      up to `q`, the `;` at `q`, the rest after it. */
  lemma ProgramSlices(tokens: seq<Token>, pos: nat, ts: seq<Token>, rest: seq<Token>) returns (q: nat)
    requires pos <= |tokens| && tokens[pos..] == ts + [Semicolon] + rest
    ensures q == pos + |ts| < |tokens| && tokens[pos..q] == ts && tokens[q] == Semicolon && tokens[q + 1..] == rest
  {
    q := pos + |ts|;
    var w := tokens[pos..];
    assert tokens[pos..q] == w[..|ts|];
    assert tokens[q] == w[|ts|];
    assert tokens[q + 1..] == w[|ts| + 1..];
  }

  /** One round of `parse`'s loop: an expression, then `;`. */
  lemma ParseFromStep(tokens: seq<Token>, pos: nat, acc: seq<Expr>, e: Expr, q: nat)
    requires pos < |tokens| && ExprAt(tokens, pos) == Parsed(e, q) && q < |tokens| && tokens[q].Semicolon?
    ensures ParseFrom(tokens, pos, acc) == ParseFrom(tokens, q + 1, acc + [e])
  {
  }
}
