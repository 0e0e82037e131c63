/**
 * The recursive-descent PEG parser of `src/parser/parser.rs`, one function per
 * `parse_*` function. Each parses `input[pos..]` and reports where the rest starts
 * (see module Text); every recursive call comes after at least one character has
 * been consumed, or goes down to a parser of lower rank on the same position.
 *
 * The copies of this parser under `genv/src` differ only in a few alternatives,
 * selected by a `Dialect`:
 *  - `Copy999` (genv/src/999.rs): no `import` and no method call;
 *  - `MainRs` (genv/src/main.rs): additionally no function literal in expressions;
 *  - `Decl` (genv/src/111.rs and genv/src/vm/parser.rs): statements are variable
 *    declarations only, a function body is always the block form, and an
 *    expression is a function literal, a binary operation, a tuple or an atom.
 */
module Parser {
  import opened Text
  import opened Ast

  datatype Dialect = Src | Copy999 | MainRs | Decl {
    predicate HasFunctionLiteral() { this != MainRs }
    predicate HasMethodCall() { this == Src }
    predicate HasFunctionCall() { this != Decl }
    predicate HasAllStatements() { this != Decl }
  }

  /** nom's `alt` on two alternatives: the second counts only after a recoverable error of the first. */
  function Alt<T>(first: PResult<T>, second: PResult<T>): PResult<T> {
    if first.Fail? then second else first
  }

  /** The character at `pos` is `c`. */
  predicate At(input: string, pos: nat, c: char) {
    pos < |input| && input[pos] == c
  }

  /** `parse_identifier`: one or more ASCII letters. */
  function ParseIdentifier(input: string, pos: nat): (r: PResult<string>)
    requires pos <= |input|
    ensures Advances(r, input, pos)
    ensures !r.Cut?
    ensures r.Done? <==> pos < |input| && IsAlpha(input[pos])
    ensures r.Done? ==> r.value == input[pos..r.pos] && AllIn(Alpha, r.value)
    ensures r.Done? && r.pos < |input| ==> !IsAlpha(input[r.pos])
  {
    Take1(Alpha, input, pos)
  }

  /** The list separators: `multispace0 "," multispace0` and (method calls) `space0 "," space0`. */
  datatype Separator = MultiComma | SpaceComma {
    function Blank(): CharClass { if this == MultiComma then Multispace else Space }
  }

  /** The separator: blanks, a comma, blanks, as many blanks as there are; absent
      exactly when the first character after the blanks is not a comma. */
  function SkipSeparator(sep: Separator, input: string, pos: nat): (end: Option<nat>)
    requires pos <= |input|
    ensures end.Some? <==> exists c :: pos <= c < |input| && input[c] == ',' && RunOf(sep.Blank(), input, pos, c)
    ensures end.Some? ==> pos < end.value <= |input|
    ensures end.Some? ==>
      exists c :: pos <= c < end.value && input[c] == ',' && RunOf(sep.Blank(), input, pos, c)
        && RunOf(sep.Blank(), input, c + 1, end.value)
    ensures end.Some? && end.value < |input| ==> !sep.Blank().Has(input[end.value])
  {
    var q := Skip0(sep.Blank(), input, pos);
    if At(input, q, ',') then Some(Skip0(sep.Blank(), input, q + 1)) else None
  }

  // ---------------------------------------------------------------- atoms

  /** `parse_string`: a double quote, everything up to the next double quote, that quote. */
  function ParseString(input: string, pos: nat): (r: PResult<Atom>)
    requires pos <= |input|
    ensures Advances(r, input, pos)
    ensures !r.Cut?
    ensures r.Done? <==> At(input, pos, Quote) && exists i :: pos < i < |input| && input[i] == Quote
    ensures r.Done? ==>
      At(input, pos, Quote) && pos + 2 <= r.pos && r.value == String(input[pos + 1..r.pos - 1])
      && At(input, r.pos - 1, Quote) && Quote !in r.value.text
  {
    if !At(input, pos, Quote) then Fail
    else
      match TakeUntil(Quote, input, pos + 1)
      case Done(text, q) => Done(String(text), q + 1)
      case _ => Fail
  }

  /** `parse_boolean`: the prefixes `true` and `false`. */
  function ParseBoolean(input: string, pos: nat): (r: PResult<Atom>)
    ensures Advances(r, input, pos)
    ensures !r.Cut?
    ensures r.Done? <==> Matches(input, pos, "true") || Matches(input, pos, "false")
    ensures r.Done? ==>
      r.value == Boolean(Matches(input, pos, "true")) && r.pos == pos + (if r.value.truth then 4 else 5)
  {
    match Tag("true", input, pos)
    case Done(_, q) => Done(Boolean(true), q)
    case _ =>
      match Tag("false", input, pos)
      case Done(_, q) => Done(Boolean(false), q)
      case _ => Fail
  }

  /** `parse_double`: nom's `double`, kept as the recognised literal text. */
  function ParseDouble(input: string, pos: nat): (r: PResult<Atom>)
    requires pos <= |input|
    ensures Advances(r, input, pos)
    ensures r.Done? <==> RecognizeDouble(input, pos).Done?
    ensures r.Cut? <==> RecognizeDouble(input, pos).Cut?
    ensures r.Done? ==>
      r.value == Double(FloatLiteral(input[pos..r.pos])) && r.pos == RecognizeDouble(input, pos).pos
  {
    match RecognizeDouble(input, pos)
    case Done(text, q) => Done(Double(FloatLiteral(text)), q)
    case Fail => Fail
    case Cut => Cut
  }

  /** `parse_integer`: nom's `i64`. */
  function ParseInteger(input: string, pos: nat): (r: PResult<Atom>)
    requires pos <= |input|
    ensures Advances(r, input, pos)
    ensures !r.Cut?
    ensures r.Done? <==> I64(input, pos).Done?
    ensures r.Done? ==> r.value == Integer(I64(input, pos).value) && r.pos == I64(input, pos).pos
  {
    match I64(input, pos)
    case Done(v, q) => Done(Integer(v), q)
    case _ => Fail
  }

  /** `parse_variable`: an identifier as a variable reference. */
  function ParseVariable(input: string, pos: nat): (r: PResult<Atom>)
    requires pos <= |input|
    ensures Advances(r, input, pos)
    ensures !r.Cut?
    ensures r.Done? <==> ParseIdentifier(input, pos).Done?
    ensures r.Done? ==> r.value == Variable(ParseIdentifier(input, pos).value) && r.pos == ParseIdentifier(input, pos).pos
  {
    match ParseIdentifier(input, pos)
    case Done(name, q) => Done(Variable(name), q)
    case _ => Fail
  }

  /** `parse_atom`'s choice: boolean, double, integer, string, variable, first success wins. */
  function ParseAtomValue(input: string, pos: nat): (r: PResult<Atom>)
    requires pos <= |input|
    ensures Advances(r, input, pos)
  {
    Alt(ParseBoolean(input, pos), Alt(ParseDouble(input, pos),
      Alt(ParseInteger(input, pos), Alt(ParseString(input, pos), ParseVariable(input, pos)))))
  }

  /** `parse_atom`: the chosen atom as an expression. */
  function ParseAtom(input: string, pos: nat): (r: PResult<Expression>)
    requires pos <= |input|
    ensures Advances(r, input, pos)
    ensures r.Done? <==> ParseAtomValue(input, pos).Done?
    ensures r.Cut? <==> ParseAtomValue(input, pos).Cut?
    ensures r.Done? ==> r.value == Atom(ParseAtomValue(input, pos).value) && r.pos == ParseAtomValue(input, pos).pos
  {
    match ParseAtomValue(input, pos)
    case Done(a, q) => Done(Atom(a), q)
    case Fail => Fail
    case Cut => Cut
  }

  /** `parse_binary_operator`: `+ - * /` as single characters, then `==` and `!=`. */
  function ParseBinaryOperator(input: string, pos: nat): (r: PResult<BinaryOperator>)
    ensures Advances(r, input, pos)
    ensures !r.Cut?
    ensures r.Done? <==>
      (pos < |input| && input[pos] in "+-*/") || Matches(input, pos, "==") || Matches(input, pos, "!=")
    ensures r.Done? ==> r.pos == pos + (if r.value == Equal || r.value == NotEqual then 2 else 1)
  {
    if At(input, pos, '+') then Done(Plus, pos + 1)
    else if At(input, pos, '-') then Done(Minus, pos + 1)
    else if At(input, pos, '*') then Done(Times, pos + 1)
    else if At(input, pos, '/') then Done(Divide, pos + 1)
    else if Matches(input, pos, "==") then Done(Equal, pos + 2)
    else if Matches(input, pos, "!=") then Done(NotEqual, pos + 2)
    else Fail
  }

  /** `parse_binary_operation`: atom, whitespace, one operator, whitespace, atom. */
  function ParseBinaryOperation(input: string, pos: nat): (r: PResult<Expression>)
    requires pos <= |input|
    ensures Advances(r, input, pos)
    ensures r.Done? ==> r.value.BinaryOperation? && r.value.left.Atom? && r.value.right.Atom?
    ensures r.Done? ==>
      var left := ParseAtom(input, pos);
      left.Done? && r.value.left == left.value &&
      (var op := ParseBinaryOperator(input, Skip0(Multispace, input, left.pos));
       op.Done? && r.value.op == op.value &&
       ParseAtom(input, Skip0(Multispace, input, op.pos)) == Done(r.value.right, r.pos))
  {
    match ParseAtom(input, pos)
    case Fail => Fail
    case Cut => Cut
    case Done(left, q1) =>
      match ParseBinaryOperator(input, Skip0(Multispace, input, q1))
      case Done(op, q2) =>
        (match ParseAtom(input, Skip0(Multispace, input, q2))
         case Done(right, q3) => Done(BinaryOperation(op, left, right), q3)
         case Fail => Fail
         case Cut => Cut)
      case _ => Fail
  }

  // ---------------------------------------------------------------- lists

  /** `separated_list0(sep, parse_expression)`: an empty list when the first element fails. */
  function ParseExpressionList(d: Dialect, sep: Separator, input: string, pos: nat)
    : (r: PResult<seq<Expression>>)
    requires pos <= |input|
    decreases |input| - pos, 3
    ensures Within(r, input, pos)
  {
    match ParseExpression(d, input, pos)
    case Fail => Done([], pos)
    case Cut => Cut
    case Done(e, q) =>
      match ParseExpressionListTail(d, sep, input, q)
      case Done(es, q2) => Done([e] + es, q2)
      case Fail => Fail
      case Cut => Cut
  }

  /** The rest of a separated list: separator then element, until either is missing;
      when the element after a separator fails, the separator is not consumed. */
  function ParseExpressionListTail(d: Dialect, sep: Separator, input: string, pos: nat)
    : (r: PResult<seq<Expression>>)
    requires pos <= |input|
    decreases |input| - pos, 0
    ensures Within(r, input, pos)
  {
    match SkipSeparator(sep, input, pos)
    case None => Done([], pos)
    case Some(q) =>
      match ParseExpression(d, input, q)
      case Fail => Done([], pos)
      case Cut => Cut
      case Done(e, q2) =>
        match ParseExpressionListTail(d, sep, input, q2)
        case Done(es, q3) => Done([e] + es, q3)
        case Fail => Fail
        case Cut => Cut
  }

  /** `open`, a separated list of expressions, `close`: tuples and argument lists. */
  function ParseDelimitedList(d: Dialect, open: char, sep: Separator, close: char, input: string, pos: nat)
    : (r: PResult<seq<Expression>>)
    requires pos <= |input|
    decreases |input| - pos, 0
    ensures Advances(r, input, pos)
    ensures r.Done? <==>
      At(input, pos, open) && ParseExpressionList(d, sep, input, pos + 1).Done?
      && At(input, ParseExpressionList(d, sep, input, pos + 1).pos, close)
    ensures r.Done? ==>
      r.value == ParseExpressionList(d, sep, input, pos + 1).value
      && r.pos == ParseExpressionList(d, sep, input, pos + 1).pos + 1
  {
    if !At(input, pos, open) then Fail
    else
      match ParseExpressionList(d, sep, input, pos + 1)
      case Done(es, q) => if At(input, q, close) then Done(es, q + 1) else Fail
      case Fail => Fail
      case Cut => Cut
  }

  /** `separated_list0(multispace0 "," multispace0, parse_identifier)`. */
  function ParseIdentifierList(input: string, pos: nat): (r: PResult<seq<string>>)
    requires pos <= |input|
    ensures r.Done? && pos <= r.pos <= |input|
  {
    match ParseIdentifier(input, pos)
    case Done(name, q) =>
      var tail := ParseIdentifierListTail(input, q);
      Done([name] + tail.value, tail.pos)
    case _ => Done([], pos)
  }

  function ParseIdentifierListTail(input: string, pos: nat): (r: PResult<seq<string>>)
    requires pos <= |input|
    decreases |input| - pos
    ensures r.Done? && pos <= r.pos <= |input|
  {
    match SkipSeparator(MultiComma, input, pos)
    case None => Done([], pos)
    case Some(q) =>
      match ParseIdentifier(input, q)
      case Done(name, q2) =>
        var tail := ParseIdentifierListTail(input, q2);
        Done([name] + tail.value, tail.pos)
      case _ => Done([], pos)
  }

  // ---------------------------------------------------------------- functions

  /** `parse_parameter`: a name and an optional `=` default value. */
  function ParseParameter(d: Dialect, input: string, pos: nat): (r: PResult<Parameter>)
    requires pos <= |input|
    decreases |input| - pos, 0
    ensures Advances(r, input, pos)
    ensures r.Fail? <==> ParseIdentifier(input, pos).Fail?
    ensures r.Done? ==> ParseIdentifier(input, pos).Done? && r.value.name == ParseIdentifier(input, pos).value
  {
    match ParseIdentifier(input, pos)
    case Done(name, q) =>
      if At(input, q, '=') then
        match ParseExpression(d, input, q + 1)
        case Done(e, q2) => Done(Parameter(name, Some(e)), q2)
        case Fail => Done(Parameter(name, None), q)
        case Cut => Cut
      else Done(Parameter(name, None), q)
    case _ => Fail
  }

  function ParseParameterItems(d: Dialect, input: string, pos: nat): (r: PResult<seq<Parameter>>)
    requires pos <= |input|
    decreases |input| - pos, 1
    ensures Within(r, input, pos)
  {
    match ParseParameter(d, input, pos)
    case Fail => Done([], pos)
    case Cut => Cut
    case Done(prm, q) =>
      match ParseParameterItemsTail(d, input, q)
      case Done(ps, q2) => Done([prm] + ps, q2)
      case Fail => Fail
      case Cut => Cut
  }

  function ParseParameterItemsTail(d: Dialect, input: string, pos: nat): (r: PResult<seq<Parameter>>)
    requires pos <= |input|
    decreases |input| - pos, 0
    ensures Within(r, input, pos)
  {
    match SkipSeparator(MultiComma, input, pos)
    case None => Done([], pos)
    case Some(q) =>
      match ParseParameter(d, input, q)
      case Fail => Done([], pos)
      case Cut => Cut
      case Done(prm, q2) =>
        match ParseParameterItemsTail(d, input, q2)
        case Done(ps, q3) => Done([prm] + ps, q3)
        case Fail => Fail
        case Cut => Cut
  }

  /** `parse_parameter_list`: `(`, parameters separated by commas, `)`. */
  function ParseParameterList(d: Dialect, input: string, pos: nat): (r: PResult<seq<Parameter>>)
    requires pos <= |input|
    decreases |input| - pos, 0
    ensures Advances(r, input, pos)
  {
    if !At(input, pos, '(') then Fail
    else
      match ParseParameterItems(d, input, pos + 1)
      case Done(ps, q) => if At(input, q, ')') then Done(ps, q + 1) else Fail
      case Fail => Fail
      case Cut => Cut
  }

  /** `space0 "=>" space0`: spaces, the arrow, spaces, as many spaces as there are;
      absent exactly when the first character after the spaces does not begin `=>`. */
  function SkipArrow(input: string, pos: nat): (end: Option<nat>)
    requires pos <= |input|
    ensures end.Some? <==>
      exists c :: pos <= c && c + 1 < |input| && input[c] == '=' && input[c + 1] == '>' && RunOf(Space, input, pos, c)
    ensures end.Some? ==> pos < end.value <= |input|
    ensures end.Some? ==>
      exists c :: pos <= c && c + 2 <= end.value && input[c] == '=' && input[c + 1] == '>'
        && RunOf(Space, input, pos, c) && RunOf(Space, input, c + 2, end.value)
    ensures end.Some? && end.value < |input| ==> !Space.Has(input[end.value])
  {
    var q := Skip0(Space, input, pos);
    if q + 1 < |input| && input[q] == '=' && input[q + 1] == '>' then Some(Skip0(Space, input, q + 2)) else None
  }

  /** `parse_block`: statements, each after optional whitespace, then whitespace and the return expression. */
  function ParseBlock(d: Dialect, input: string, pos: nat): (r: PResult<Block>)
    requires pos <= |input|
    decreases |input| - pos, 4
    ensures Advances(r, input, pos)
  {
    match ParseStatements(d, input, pos)
    case Done(stmts, q) =>
      (match ParseExpression(d, input, Skip0(Multispace, input, q))
       case Done(e, q2) => Done(Block(stmts, e), q2)
       case Fail => Fail
       case Cut => Cut)
    case Fail => Fail
    case Cut => Cut
  }

  /** `parse_single_line_body`: one expression, no statements. */
  function ParseSingleLineBody(d: Dialect, input: string, pos: nat): (r: PResult<Block>)
    requires pos <= |input|
    decreases |input| - pos, 3
    ensures Advances(r, input, pos)
    ensures r.Done? <==> ParseExpression(d, input, pos).Done?
    ensures r.Cut? <==> ParseExpression(d, input, pos).Cut?
    ensures r.Done? ==>
      r.value == Block([], ParseExpression(d, input, pos).value) && r.pos == ParseExpression(d, input, pos).pos
  {
    match ParseExpression(d, input, pos)
    case Done(e, q) => Done(Block([], e), q)
    case Fail => Fail
    case Cut => Cut
  }

  /** `parse_function_body`: `=> expr` first, else `=> block` followed by whitespace.
      The Decl dialect has only `=> block`, with no trailing whitespace. */
  function ParseFunctionBody(d: Dialect, input: string, pos: nat): (r: PResult<Block>)
    requires pos <= |input|
    decreases |input| - pos, 0
    ensures Advances(r, input, pos)
  {
    match SkipArrow(input, pos)
    case None => Fail
    case Some(q) =>
      if d == Decl then ParseBlock(d, input, q)
      else
        Alt(ParseSingleLineBody(d, input, q),
          match ParseBlock(d, input, q)
          case Done(b, q2) => Done(b, Skip0(Multispace, input, q2))
          case Fail => Fail
          case Cut => Cut)
  }

  /** `parse_function`: name, parameter list, body. */
  function ParseFunction(d: Dialect, input: string, pos: nat): (r: PResult<Function>)
    requires pos <= |input|
    decreases |input| - pos, 0
    ensures Advances(r, input, pos)
    ensures r.Done? ==> ParseIdentifier(input, pos).Done? && r.value.name == ParseIdentifier(input, pos).value
    ensures r.Done? ==>
      var parameters := ParseParameterList(d, input, ParseIdentifier(input, pos).pos);
      parameters.Done? && r.value.parameters == parameters.value
      && ParseFunctionBody(d, input, parameters.pos) == Done(r.value.body, r.pos)
  {
    match ParseIdentifier(input, pos)
    case Done(name, q) =>
      (match ParseParameterList(d, input, q)
       case Done(ps, q2) =>
         (match ParseFunctionBody(d, input, q2)
          case Done(body, q3) => Done(Func(name, ps, body), q3)
          case Fail => Fail
          case Cut => Cut)
       case Fail => Fail
       case Cut => Cut)
    case _ => Fail
  }

  // ---------------------------------------------------------------- expressions

  /** `parse_tuple`: `[`, expressions separated by commas, `]`. */
  function ParseTuple(d: Dialect, input: string, pos: nat): (r: PResult<Expression>)
    requires pos <= |input|
    decreases |input| - pos, 1
    ensures Advances(r, input, pos)
    ensures r.Done? <==> ParseDelimitedList(d, '[', MultiComma, ']', input, pos).Done?
    ensures r.Done? ==>
      r.value.Tuple? && ParseDelimitedList(d, '[', MultiComma, ']', input, pos) == Done(r.value.items, r.pos)
  {
    match ParseDelimitedList(d, '[', MultiComma, ']', input, pos)
    case Done(es, q) => Done(Tuple(es), q)
    case Fail => Fail
    case Cut => Cut
  }

  /** `parse_function_call`: a name immediately followed by a parenthesised argument list. */
  function ParseFunctionCall(d: Dialect, input: string, pos: nat): (r: PResult<Expression>)
    requires pos <= |input|
    decreases |input| - pos, 0
    ensures Advances(r, input, pos)
    ensures r.Done? ==> r.value.FunctionCall? && ParseIdentifier(input, pos).Done? && r.value.callee == ParseIdentifier(input, pos).value
    ensures r.Done? ==>
      ParseDelimitedList(d, '(', MultiComma, ')', input, ParseIdentifier(input, pos).pos) == Done(r.value.args, r.pos)
  {
    match ParseIdentifier(input, pos)
    case Done(name, q) =>
      (match ParseDelimitedList(d, '(', MultiComma, ')', input, q)
       case Done(args, q2) => Done(Expression.FunctionCall(name, args), q2)
       case Fail => Fail
       case Cut => Cut)
    case _ => Fail
  }

  /** `parse_import`: `import`, optional spaces, a library name. */
  function ParseImport(input: string, pos: nat): (r: PResult<Expression>)
    requires pos <= |input|
    ensures Advances(r, input, pos)
    ensures !r.Cut?
    ensures r.Done? <==> Matches(input, pos, "import") && ParseIdentifier(input, Skip0(Space, input, pos + 6)).Done?
    ensures r.Done? ==>
      var name := ParseIdentifier(input, Skip0(Space, input, pos + 6));
      r.value == MethodCall("import", name.value, []) && r.pos == name.pos
  {
    match Tag("import", input, pos)
    case Done(_, q) =>
      (match ParseIdentifier(input, Skip0(Space, input, q))
       case Done(name, q2) => Done(MethodCall("import", name, []), q2)
       case _ => Fail)
    case _ => Fail
  }

  /** `parse_method_call`: object, spaces, `.` method spaces, `(` arguments separated by
      `space0 "," space0` `)`. */
  function ParseMethodCall(d: Dialect, input: string, pos: nat): (r: PResult<Expression>)
    requires pos <= |input|
    decreases |input| - pos, 0
    ensures Advances(r, input, pos)
    ensures r.Done? ==> r.value.MethodCall? && ParseIdentifier(input, pos).Done? && r.value.receiver == ParseIdentifier(input, pos).value
  {
    match ParseIdentifier(input, pos)
    case Done(receiver, q) =>
      var q1 := Skip0(Space, input, q);
      if !At(input, q1, '.') then Fail
      else
        (match ParseIdentifier(input, q1 + 1)
         case Done(member, q2) =>
           (match ParseDelimitedList(d, '(', SpaceComma, ')', input, Skip0(Space, input, q2))
            case Done(args, q3) => Done(MethodCall(receiver, member, args), q3)
            case Fail => Fail
            case Cut => Cut)
         case _ => Fail)
    case _ => Fail
  }

  /** The function-literal alternative of `parse_expression`. */
  function ParseFunctionLiteral(d: Dialect, input: string, pos: nat): (r: PResult<Expression>)
    requires pos <= |input|
    decreases |input| - pos, 1
    ensures Advances(r, input, pos)
    ensures r.Done? <==> ParseFunction(d, input, pos).Done?
    ensures r.Cut? <==> ParseFunction(d, input, pos).Cut?
    ensures r.Done? ==> r.value == Function(ParseFunction(d, input, pos).value) && r.pos == ParseFunction(d, input, pos).pos
  {
    match ParseFunction(d, input, pos)
    case Done(f, q) => Done(Function(f), q)
    case Fail => Fail
    case Cut => Cut
  }

  /** `parse_expression`: an ordered choice, the first alternative that succeeds wins. */
  function ParseExpression(d: Dialect, input: string, pos: nat): (r: PResult<Expression>)
    requires pos <= |input|
    decreases |input| - pos, 2
    ensures Advances(r, input, pos)
  {
    Alt(if d.HasFunctionLiteral() then ParseFunctionLiteral(d, input, pos) else Fail,
    Alt(ParseBinaryOperation(input, pos),
    Alt(ParseTuple(d, input, pos),
    Alt(if d.HasMethodCall() then ParseImport(input, pos) else Fail,
    Alt(if d.HasMethodCall() then ParseMethodCall(d, input, pos) else Fail,
    Alt(if d.HasFunctionCall() then ParseFunctionCall(d, input, pos) else Fail,
        ParseAtom(input, pos)))))))
  }

  // ---------------------------------------------------------------- statements

  /** `parse_variable_declaration`: name, spaces, `=`, spaces, expression. */
  function ParseVariableDeclaration(d: Dialect, input: string, pos: nat): (r: PResult<Statement>)
    requires pos <= |input|
    decreases |input| - pos, 0
    ensures Advances(r, input, pos)
    ensures r.Done? ==> r.value.VariableDeclaration?
  {
    match ParseIdentifier(input, pos)
    case Done(name, q) =>
      var q1 := Skip0(Space, input, q);
      if !At(input, q1, '=') then Fail
      else
        (match ParseExpression(d, input, Skip0(Space, input, q1 + 1))
         case Done(e, q2) => Done(VariableDeclaration(name, e), q2)
         case Fail => Fail
         case Cut => Cut)
    case _ => Fail
  }

  /** `parse_assignment`: the same grammar as `parse_variable_declaration`. */
  function ParseAssignment(d: Dialect, input: string, pos: nat): (r: PResult<Statement>)
    requires pos <= |input|
    decreases |input| - pos, 0
    ensures Advances(r, input, pos)
    ensures r.Done? ==> r.value.Assignment?
  {
    match ParseIdentifier(input, pos)
    case Done(name, q) =>
      var q1 := Skip0(Space, input, q);
      if !At(input, q1, '=') then Fail
      else
        (match ParseExpression(d, input, Skip0(Space, input, q1 + 1))
         case Done(e, q2) => Done(Assignment(name, e), q2)
         case Fail => Fail
         case Cut => Cut)
    case _ => Fail
  }

  /** `parse_tuple_assignment`: `[` names `]`, spaces, `=`, spaces, expression. */
  function ParseTupleAssignment(d: Dialect, input: string, pos: nat): (r: PResult<Statement>)
    requires pos <= |input|
    decreases |input| - pos, 0
    ensures Advances(r, input, pos)
    ensures r.Done? ==> r.value.TupleAssignment? && At(input, pos, '[')
    ensures r.Done? ==>
      r.value.names == ParseIdentifierList(input, pos + 1).value && At(input, ParseIdentifierList(input, pos + 1).pos, ']')
  {
    if !At(input, pos, '[') then Fail
    else
      var names := ParseIdentifierList(input, pos + 1);
      if !At(input, names.pos, ']') then Fail
      else
        var q1 := Skip0(Space, input, names.pos + 1);
        if !At(input, q1, '=') then Fail
        else
          match ParseExpression(d, input, Skip0(Space, input, q1 + 1))
          case Done(e, q2) => Done(TupleAssignment(names.value, e), q2)
          case Fail => Fail
          case Cut => Cut
  }

  /** `parse_function_definition`: a function as a statement. */
  function ParseFunctionDefinition(d: Dialect, input: string, pos: nat): (r: PResult<Statement>)
    requires pos <= |input|
    decreases |input| - pos, 1
    ensures Advances(r, input, pos)
    ensures r.Done? <==> ParseFunction(d, input, pos).Done?
    ensures r.Cut? <==> ParseFunction(d, input, pos).Cut?
    ensures r.Done? ==> r.value == FunctionDefinition(ParseFunction(d, input, pos).value) && r.pos == ParseFunction(d, input, pos).pos
  {
    match ParseFunction(d, input, pos)
    case Done(f, q) => Done(FunctionDefinition(f), q)
    case Fail => Fail
    case Cut => Cut
  }

  /** `parse_function_call_statement`: a call as a statement. */
  function ParseFunctionCallStatement(d: Dialect, input: string, pos: nat): (r: PResult<Statement>)
    requires pos <= |input|
    decreases |input| - pos, 0
    ensures Advances(r, input, pos)
    ensures r.Done? ==> r.value.FunctionCall? && ParseIdentifier(input, pos).Done? && r.value.callee == ParseIdentifier(input, pos).value
    ensures r.Done? ==>
      ParseDelimitedList(d, '(', MultiComma, ')', input, ParseIdentifier(input, pos).pos) == Done(r.value.args, r.pos)
  {
    match ParseIdentifier(input, pos)
    case Done(name, q) =>
      (match ParseDelimitedList(d, '(', MultiComma, ')', input, q)
       case Done(args, q2) => Done(Statement.FunctionCall(name, args), q2)
       case Fail => Fail
       case Cut => Cut)
    case _ => Fail
  }

  /** `parse_statement`: variable declaration, assignment, tuple assignment, function
      definition, call, first success wins; the Decl dialect has declarations only. */
  function ParseStatement(d: Dialect, input: string, pos: nat): (r: PResult<Statement>)
    requires pos <= |input|
    decreases |input| - pos, 2
    ensures Advances(r, input, pos)
  {
    if !d.HasAllStatements() then ParseVariableDeclaration(d, input, pos)
    else
      Alt(ParseVariableDeclaration(d, input, pos),
      Alt(ParseAssignment(d, input, pos),
      Alt(ParseTupleAssignment(d, input, pos),
      Alt(ParseFunctionDefinition(d, input, pos),
          ParseFunctionCallStatement(d, input, pos)))))
  }

  /** `many0(preceded(multispace0, parse_statement))`: statements until one fails;
      the whitespace before the failing one is not consumed. */
  function ParseStatements(d: Dialect, input: string, pos: nat): (r: PResult<seq<Statement>>)
    requires pos <= |input|
    decreases |input| - pos, 3
    ensures Within(r, input, pos)
  {
    match ParseStatement(d, input, Skip0(Multispace, input, pos))
    case Fail => Done([], pos)
    case Cut => Cut
    case Done(st, q) =>
      // nom's guard against an element parser that consumes nothing
      if q == pos then Fail
      else
        match ParseStatements(d, input, q)
        case Done(sts, q2) => Done([st] + sts, q2)
        case Fail => Fail
        case Cut => Cut
  }
}
