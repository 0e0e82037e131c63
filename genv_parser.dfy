/**
 * The token parser of the `genv` calculator (genv/src/ast/paser.rs): a cursor into
 * the token vector, advanced by `parse_primary`, `parse_binop` and `parse_expr`,
 * and a `while` loop collecting one expression per `;`.
 *
 * The functions give the grammar; the methods are the cursor code, proved to
 * compute what the functions say.
 */
module GenvParser {
  import opened Text
  import opened Results
  import opened GenvLexer

  datatype BinOp = Add | Sub | Mul | Div

  datatype Expr =
    | Number(n: Int32)
    | Variable(name: string)
    | BinaryOp(lhs: Expr, op: BinOp, rhs: Expr)
    | Assignment(name: string, value: Expr)

  /** A parse from a cursor position: the value and the new cursor, or the error text. */
  datatype Parsed<+T> = Parsed(value: T, pos: nat) | ParseError(message: string)

  /** The operator tokens. */
  predicate IsOperator(t: Token) {
    t.Plus? || t.Minus? || t.Multiply? || t.Divide?
  }

  /** `parse_binop`: the operator at the cursor, if there is one. */
  function BinopAt(tokens: seq<Token>, pos: nat): (r: Option<BinOp>)
    ensures r.Some? <==> pos < |tokens| && IsOperator(tokens[pos])
    ensures r == Some(Add) <==> pos < |tokens| && tokens[pos].Plus?
    ensures r == Some(Sub) <==> pos < |tokens| && tokens[pos].Minus?
    ensures r == Some(Mul) <==> pos < |tokens| && tokens[pos].Multiply?
    ensures r == Some(Div) <==> pos < |tokens| && tokens[pos].Divide?
  {
    if pos >= |tokens| then None
    else
      match tokens[pos]
      case Plus => Some(Add)
      case Minus => Some(Sub)
      case Multiply => Some(Mul)
      case Divide => Some(Div)
      case _ => None
  }

  /** `parse_primary`: a number; an identifier, which becomes an assignment when `=`
      follows it; anything else is an error. */
  function PrimaryAt(tokens: seq<Token>, pos: nat): (r: Parsed<Expr>)
    requires pos <= |tokens|
    decreases |tokens| - pos, 0
    ensures r.Parsed? ==> pos < r.pos <= |tokens|
    ensures r.ParseError? && pos == |tokens| ==> r.message == "Unexpected end of input"
    ensures pos < |tokens| && !tokens[pos].Number? && !tokens[pos].Identifier? ==>
      r == ParseError("Expected a number or identifier")
    ensures pos < |tokens| && tokens[pos].Number? ==> r == Parsed(Expr.Number(tokens[pos].n), pos + 1)
    ensures pos < |tokens| && tokens[pos].Identifier? && !(pos + 1 < |tokens| && tokens[pos + 1].Assign?) ==>
      r == Parsed(Variable(tokens[pos].name), pos + 1)
  {
    if pos == |tokens| then ParseError("Unexpected end of input")
    else
      match tokens[pos]
      case Number(n) => Parsed(Expr.Number(n), pos + 1)
      case Identifier(name) =>
        if pos + 1 < |tokens| && tokens[pos + 1].Assign? then
          match ExprAt(tokens, pos + 2)
          case Parsed(e, q) => Parsed(Assignment(name, e), q)
          case ParseError(m) => ParseError(m)
        else Parsed(Variable(name), pos + 1)
      case _ => ParseError("Expected a number or identifier")
  }

  /** `parse_expr`: a primary, then at most one operator and a second primary. */
  function ExprAt(tokens: seq<Token>, pos: nat): (r: Parsed<Expr>)
    requires pos <= |tokens|
    decreases |tokens| - pos, 1
    ensures r.Parsed? ==> pos < r.pos <= |tokens|
  {
    match PrimaryAt(tokens, pos)
    case ParseError(m) => ParseError(m)
    case Parsed(lhs, q) =>
      match BinopAt(tokens, q)
      case None => Parsed(lhs, q)
      case Some(op) =>
        match PrimaryAt(tokens, q + 1)
        case Parsed(rhs, q2) => Parsed(BinaryOp(lhs, op, rhs), q2)
        case ParseError(m) => ParseError(m)
  }

  /** An identifier followed by `=` is an assignment of the expression after the `=`,
      and fails exactly when that expression does. */
  lemma AssignmentAt(tokens: seq<Token>, pos: nat)
    requires pos + 1 < |tokens| && tokens[pos].Identifier? && tokens[pos + 1].Assign?
    ensures
      var r, e := PrimaryAt(tokens, pos), ExprAt(tokens, pos + 2);
      (r.Parsed? <==> e.Parsed?) &&
      (r.Parsed? ==> r == Parsed(Assignment(tokens[pos].name, e.value), e.pos)) &&
      (r.ParseError? ==> r == e)
  {
  }

  /** Every outcome of `parse_expr`: a failing primary is its failure, and a success is
      a primary, then at most one operator and a second primary. */
  lemma ExprAtParts(tokens: seq<Token>, pos: nat)
    requires pos <= |tokens|
    ensures
      var r, lhs := ExprAt(tokens, pos), PrimaryAt(tokens, pos);
      (lhs.ParseError? ==> r == lhs) &&
      (r.Parsed? ==>
        lhs.Parsed? &&
        ((BinopAt(tokens, lhs.pos).None? && r == lhs) ||
         (BinopAt(tokens, lhs.pos).Some? && PrimaryAt(tokens, lhs.pos + 1).Parsed? &&
          r == Parsed(BinaryOp(lhs.value, BinopAt(tokens, lhs.pos).value, PrimaryAt(tokens, lhs.pos + 1).value),
                      PrimaryAt(tokens, lhs.pos + 1).pos))))
  {
  }

  /** The `while` loop of `parse` from cursor `pos`, with the expressions so far in `acc`. */
  function ParseFrom(tokens: seq<Token>, pos: nat, acc: seq<Expr>): (r: Result<seq<Expr>>)
    requires pos <= |tokens|
    decreases |tokens| - pos
    ensures r.Ok? ==> |r.value| >= |acc| && r.value[..|acc|] == acc
    ensures pos < |tokens| && ExprAt(tokens, pos).ParseError? ==> r == Err(ExprAt(tokens, pos).message)
    ensures (pos < |tokens| && ExprAt(tokens, pos).Parsed? &&
             !(ExprAt(tokens, pos).pos < |tokens| && tokens[ExprAt(tokens, pos).pos].Semicolon?)) ==>
      r == Err("Expected semicolon")
    ensures r.Ok? && pos < |tokens| ==> tokens[|tokens| - 1].Semicolon?
  {
    if pos == |tokens| then Ok(acc)
    else
      match ExprAt(tokens, pos)
      case ParseError(m) => Err(m)
      case Parsed(e, q) =>
        if q < |tokens| && tokens[q].Semicolon? then
          var r := ParseFrom(tokens, q + 1, acc + [e]);
          assert r.Ok? ==> r.value[..|acc|] == (acc + [e])[..|acc|];
          r
        else Err("Expected semicolon")
  }

  /** `parse`. */
  function Parse(tokens: seq<Token>): Result<seq<Expr>> {
    ParseFrom(tokens, 0, [])
  }

  // ---------------------------------------------------------------- the cursor code

  /** `parse_binop(tokens, &mut pos)`: the cursor moves only past an operator. */
  method ParseBinop(tokens: seq<Token>, pos: nat) returns (op: Option<BinOp>, next: nat)
    ensures op == BinopAt(tokens, pos)
    ensures next == (if op.Some? then pos + 1 else pos)
  {
    next := pos;
    op := None;
    if pos < |tokens| {
      match tokens[pos] {
        case Plus => op, next := Some(Add), pos + 1;
        case Minus => op, next := Some(Sub), pos + 1;
        case Multiply => op, next := Some(Mul), pos + 1;
        case Divide => op, next := Some(Div), pos + 1;
        case _ =>
      }
    }
  }

  /** `parse_primary(tokens, &mut pos)`. */
  method ParsePrimary(tokens: seq<Token>, pos: nat) returns (r: Result<Expr>, next: nat)
    requires pos <= |tokens|
    decreases |tokens| - pos, 0
    ensures r.Ok? ==> PrimaryAt(tokens, pos) == Parsed(r.value, next)
    ensures r.Err? ==> PrimaryAt(tokens, pos) == ParseError(r.message)
  {
    next := pos;
    if pos == |tokens| {
      return Err("Unexpected end of input"), next;
    }
    match tokens[pos] {
      case Number(n) =>
        next := next + 1;
        r := Ok(Expr.Number(n));
      case Identifier(name) =>
        next := next + 1;
        if next < |tokens| && tokens[next].Assign? {
          next := next + 1;
          var e;
          e, next := ParseExpr(tokens, next);
          if e.Err? {
            return Err(e.message), next;
          }
          r := Ok(Assignment(name, e.value));
        } else {
          r := Ok(Variable(name));
        }
      case _ =>
        r := Err("Expected a number or identifier");
    }
  }

  /** `parse_expr(tokens, &mut pos)`. */
  method ParseExpr(tokens: seq<Token>, pos: nat) returns (r: Result<Expr>, next: nat)
    requires pos <= |tokens|
    decreases |tokens| - pos, 1
    ensures r.Ok? ==> ExprAt(tokens, pos) == Parsed(r.value, next)
    ensures r.Err? ==> ExprAt(tokens, pos) == ParseError(r.message)
  {
    var lhs;
    lhs, next := ParsePrimary(tokens, pos);
    if lhs.Err? {
      return lhs, next;
    }
    var op;
    op, next := ParseBinop(tokens, next);
    if op.Some? {
      var rhs;
      rhs, next := ParsePrimary(tokens, next);
      if rhs.Err? {
        return rhs, next;
      }
      return Ok(BinaryOp(lhs.value, op.value, rhs.value)), next;
    }
    r := lhs;
  }

  /** `parse(tokens)`: the loop pushing one expression per `;`. */
  method ParseTokens(tokens: seq<Token>) returns (r: Result<seq<Expr>>)
    ensures r == Parse(tokens)
  {
    var pos := 0;
    var exprs := [];
    while pos < |tokens|
      invariant pos <= |tokens|
      invariant ParseFrom(tokens, pos, exprs) == Parse(tokens)
      decreases |tokens| - pos
    {
      var e;
      e, pos := ParseExpr(tokens, pos);
      if e.Err? {
        return Err(e.message);
      }
      exprs := exprs + [e.value];
      if pos < |tokens| && tokens[pos].Semicolon? {
        pos := pos + 1;
      } else {
        return Err("Expected semicolon");
      }
    }
    r := Ok(exprs);
  }
}
