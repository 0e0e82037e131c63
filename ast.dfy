/**
 * The syntax tree shared by the `src/` interpreter and its copies under `genv/src`
 * (999.rs, main.rs, 111.rs and vm/parser.rs declare the same types).
 */
module Ast {
  import opened Text

  /** The six operators of `BinaryOperation`. */
  datatype BinaryOperator = Plus | Minus | Times | Divide | Equal | NotEqual

  /** An `f64`, kept as the term that produced it: a literal's text, an arithmetic
      operation, an absolute value or a conversion from an integer. No IEEE-754
      arithmetic is modelled; two terms are equal only when they are the same term. */
  datatype Float =
    | FloatLiteral(text: string)
    | FloatArith(op: BinaryOperator, left: Float, right: Float)
    | FloatAbs(of: Float)
    | FloatOfInt(int64: Int64)

  datatype Atom =
    | String(text: string)
    | Variable(name: string)
    | Boolean(truth: bool)
    | Integer(int64: Int64)
    | Double(float: Float)

  datatype Expression =
    | BinaryOperation(op: BinaryOperator, left: Expression, right: Expression)
    | Atom(atom: Atom)
    | Function(func: Function)
    | Tuple(items: seq<Expression>)
    | FunctionCall(callee: string, args: seq<Expression>)
    | MethodCall(receiver: string, member: string, args: seq<Expression>)

  datatype Parameter = Parameter(name: string, defaultValue: Option<Expression>)

  datatype Function = Func(name: string, parameters: seq<Parameter>, body: Block)

  datatype Block = Block(statements: seq<Statement>, returnExpr: Expression)

  datatype Statement =
    | VariableDeclaration(name: string, value: Expression)
    | Assignment(name: string, value: Expression)
    | TupleAssignment(names: seq<string>, value: Expression)
    | FunctionDefinition(func: Function)
    | FunctionCall(callee: string, args: seq<Expression>)

  function Var(name: string): Expression {
    Atom(Variable(name))
  }

  function Int(i: Int64): Expression {
    Atom(Integer(i))
  }

  function Dbl(text: string): Expression {
    Atom(Double(FloatLiteral(text)))
  }

  /** Size measures used to show that evaluation terminates on the tree. */
  function ExprSize(e: Expression): nat {
    match e
    case BinaryOperation(_, l, r) => 1 + ExprSize(l) + ExprSize(r)
    case Tuple(items) => 1 + ListSize(items)
    case FunctionCall(_, args) => 1 + ListSize(args)
    case MethodCall(_, _, args) => 1 + ListSize(args)
    case _ => 1
  }

  function ListSize(es: seq<Expression>): nat {
    if es == [] then 0 else ExprSize(es[0]) + ListSize(es[1..])
  }

  lemma ListSizeSplit(es: seq<Expression>, i: nat)
    requires i < |es|
    ensures ListSize(es) == ListSize(es[..i]) + ExprSize(es[i]) + ListSize(es[i + 1..])
  {
    if i > 0 {
      ListSizeSplit(es[1..], i - 1);
      assert es[1..][..i - 1] == es[1..i];
      assert es[..i][1..] == es[1..i];
      assert es[1..][i..] == es[i + 1..];
    }
  }
}
