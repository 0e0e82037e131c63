/**
 * Consequences of the ordered choices in `src/parser/parser.rs` (shared by the
 * copies of the parser under `genv/src`).
 */
module ParserFacts {
  import opened Text
  import opened Ast
  import opened Parser

  /** The rest of every successful expression parse is a suffix of the parsed text. */
  lemma ExpressionRestIsSuffix(d: Dialect, input: string, pos: nat)
    requires pos <= |input|
    requires ParseExpression(d, input, pos).Done?
    ensures IsSuffix(input[ParseExpression(d, input, pos).pos..], input[pos..])
    ensures ParseExpression(d, input, pos).pos > pos
  {
    RestIsSuffix(input, pos, ParseExpression(d, input, pos).pos);
  }

  /** `parse_variable_declaration` and `parse_assignment` accept exactly the same text. */
  lemma DeclarationAndAssignmentAgree(d: Dialect, input: string, pos: nat)
    requires pos <= |input|
    ensures ParseVariableDeclaration(d, input, pos).Done? <==> ParseAssignment(d, input, pos).Done?
    ensures ParseVariableDeclaration(d, input, pos).Cut? <==> ParseAssignment(d, input, pos).Cut?
  {
  }

  /** Since the declaration is tried first, `parse_statement` never yields an `Assignment`. */
  lemma StatementIsNeverAssignment(d: Dialect, input: string, pos: nat)
    requires pos <= |input|
    requires ParseStatement(d, input, pos).Done?
    ensures !ParseStatement(d, input, pos).value.Assignment?
  {
    DeclarationAndAssignmentAgree(d, input, pos);
  }

  /** In `parse_atom`, `double` is tried before `i64` and accepts everything `i64` does,
      so an atom is never an `Integer`: every numeric literal becomes a `Double`. */
  lemma AtomIsNeverInteger(input: string, pos: nat)
    requires pos <= |input|
    requires ParseAtom(input, pos).Done?
    ensures !ParseAtom(input, pos).value.atom.Integer?
  {
    if I64(input, pos).Done? {
      I64ShadowedByDouble(input, pos);
    }
  }

  /** An expression never starts with whitespace; its parse is then a recoverable error. */
  lemma ExpressionRejectsLeadingBlank(d: Dialect, input: string, pos: nat)
    requires pos < |input| && Multispace.Has(input[pos])
    ensures ParseExpression(d, input, pos).Fail?
  {
    FirstCharMismatch(input, pos, "true");
    FirstCharMismatch(input, pos, "false");
    FirstCharMismatch(input, pos, "import");
    FirstCharMismatch(input, pos, "nan");
    FirstCharMismatch(input, pos, "inf");
    FirstCharMismatch(input, pos, "infinity");
    assert ParseBoolean(input, pos).Fail?;
    assert RecognizeFloat(input, pos).Fail?;
    assert ParseDouble(input, pos).Fail?;
    assert ParseInteger(input, pos).Fail?;
    assert ParseString(input, pos).Fail?;
    assert ParseVariable(input, pos).Fail?;
    assert ParseAtom(input, pos).Fail?;
    assert ParseBinaryOperation(input, pos).Fail?;
    assert ParseTuple(d, input, pos).Fail?;
    assert ParseImport(input, pos).Fail?;
    assert ParseMethodCall(d, input, pos).Fail?;
    assert ParseFunctionCall(d, input, pos).Fail?;
    assert ParseFunctionLiteral(d, input, pos).Fail?;
  }

  /** A text whose first character differs from a letter-initial word does not start with it. */
  lemma FirstCharMismatch(input: string, pos: nat, t: string)
    requires pos < |input| && t != [] && IsAlpha(t[0]) && 'a' <= t[0] <= 'z'
    requires !IsAlpha(input[pos])
    ensures !Matches(input, pos, t) && !MatchesNoCase(input, pos, t)
  {
  }

  /** After `=>`, a line break makes the single-line body fail, so the body is a block. */
  lemma ArrowThenNewlineIsBlock(d: Dialect, input: string, pos: nat, q: nat)
    requires pos <= |input| && d != Decl
    requires SkipArrow(input, pos) == Some(q) && At(input, q, '\n')
    ensures ParseFunctionBody(d, input, pos) ==
      match ParseBlock(d, input, q)
      case Done(b, q2) => Done(b, Skip0(Multispace, input, q2))
      case Fail => Fail
      case Cut => Cut
  {
    ExpressionRejectsLeadingBlank(d, input, q);
  }

  /** A binary operation has exactly two atoms: in `a + b + c` only `a + b` is consumed. */
  lemma ChainedOperatorStops(s: string)
    requires s == "a + b + c"
    ensures ParseExpression(Src, s, 0) == Done(BinaryOperation(Plus, Var("a"), Var("b")), 5)
  {
    FunctionLiteralNeedsParameters(Src, s, 0, 1);
    ChainedOperands(s);
    ChainedOperator(s);
    BinaryOperationAt(s, 0, Var("a"), 1, Plus, 3, Var("b"), 5);
    BinaryOperationBeforeTuple(Src, s, 0);
  }

  lemma ChainedOperands(s: string)
    requires s == "a + b + c"
    ensures ParseAtom(s, 0) == Done(Var("a"), 1) && ParseAtom(s, 4) == Done(Var("b"), 5)
  {
    assert s[0..1] == "a" && s[4..5] == "b";
    PlainVariableAtom(s, 0, 1);
    PlainVariableAtom(s, 4, 5);
  }

  lemma ChainedOperator(s: string)
    requires s == "a + b + c"
    ensures Skip0(Multispace, s, 1) == 2 && ParseBinaryOperator(s, 2) == Done(Plus, 3)
    ensures Skip0(Multispace, s, 3) == 4
  {
    SpanExact(Multispace, s, 1, 2);
    SpanExact(Multispace, s, 3, 4);
  }

  /** An atom, an operator and a second atom, each after optional blanks, make a
      binary operation. */
  lemma BinaryOperationAt(input: string, pos: nat, left: Expression, q1: nat, op: BinaryOperator, q2: nat,
                          right: Expression, q3: nat)
    requires pos <= |input| && q1 <= |input| && q2 <= |input|
    requires ParseAtom(input, pos) == Done(left, q1)
    requires ParseBinaryOperator(input, Skip0(Multispace, input, q1)) == Done(op, q2)
    requires ParseAtom(input, Skip0(Multispace, input, q2)) == Done(right, q3)
    ensures ParseBinaryOperation(input, pos) == Done(BinaryOperation(op, left, right), q3)
  {
  }

  /** Unless a function literal matches, a binary operation is preferred to every
      other form of expression. */
  lemma BinaryOperationBeforeTuple(d: Dialect, input: string, pos: nat)
    requires pos <= |input|
    requires !d.HasFunctionLiteral() || ParseFunctionLiteral(d, input, pos).Fail?
    requires ParseBinaryOperation(input, pos).Done?
    ensures ParseExpression(d, input, pos) == ParseBinaryOperation(input, pos)
  {
  }

  /** A name not followed by `(` is not a function literal. */
  lemma FunctionLiteralNeedsParameters(d: Dialect, input: string, pos: nat, end: nat)
    requires pos < end <= |input|
    requires forall i :: pos <= i < end ==> IsAlpha(input[i])
    requires end == |input| || (!IsAlpha(input[end]) && input[end] != '(')
    ensures ParseFunctionLiteral(d, input, pos).Fail?
  {
    assert Span(Alpha, input, pos) == end - pos by { SpanExact(Alpha, input, pos, end); }
    assert ParseIdentifier(input, pos).pos == end;
    assert ParseParameterList(d, input, end).Fail?;
    assert ParseFunction(d, input, pos).Fail?;
  }

  /** A run of letters that does not begin with `true`, `false`, `nan` or `inf`
      parses as a variable atom. */
  lemma VariableAtom(input: string, pos: nat, end: nat)
    requires pos < end <= |input|
    requires forall i :: pos <= i < end ==> IsAlpha(input[i])
    requires end == |input| || !IsAlpha(input[end])
    requires !Matches(input, pos, "true") && !Matches(input, pos, "false")
    requires !MatchesNoCase(input, pos, "nan") && !MatchesNoCase(input, pos, "inf")
    ensures ParseAtom(input, pos) == Done(Var(input[pos..end]), end)
  {
    LettersAreNoNumber(input, pos);
    LettersAreAVariable(input, pos, end);
  }

  /** Neither `double` nor `i64` reads a letter other than the start of `nan` or `inf`. */
  lemma LettersAreNoNumber(input: string, pos: nat)
    requires pos < |input| && IsAlpha(input[pos])
    requires !MatchesNoCase(input, pos, "nan") && !MatchesNoCase(input, pos, "inf")
    ensures ParseDouble(input, pos).Fail? && ParseInteger(input, pos).Fail?
  {
    assert !IsDigit(input[pos]);
    assert MantissaEnd(input, Sign(input, pos).1).None?;
    InfinityStartsWithInf(input, pos);
  }

  /** A run of letters is read whole by `parse_variable`. */
  lemma LettersAreAVariable(input: string, pos: nat, end: nat)
    requires pos < end <= |input|
    requires forall i :: pos <= i < end ==> IsAlpha(input[i])
    requires end == |input| || !IsAlpha(input[end])
    ensures ParseVariable(input, pos) == Done(Variable(input[pos..end]), end)
  {
    SpanExact(Alpha, input, pos, end);
  }

  /** `infinity` begins with `inf`, so a text that does not start with `inf` does not
      start with `infinity` either. */
  lemma InfinityStartsWithInf(input: string, pos: nat)
    ensures MatchesNoCase(input, pos, "infinity") ==> MatchesNoCase(input, pos, "inf")
  {
    if MatchesNoCase(input, pos, "infinity") {
      assert forall i :: 0 <= i < 3 ==> "infinity"[i] == "inf"[i];
    }
  }

  /** In particular a run of letters whose first letter is none of `t`, `f`, `n` and `i`
      (in either case) is a variable. */
  lemma PlainVariableAtom(input: string, pos: nat, end: nat)
    requires pos < end <= |input|
    requires forall i :: pos <= i < end ==> IsAlpha(input[i])
    requires end == |input| || !IsAlpha(input[end])
    requires Lower(input[pos]) !in {'t', 'f', 'n', 'i'}
    ensures ParseAtom(input, pos) == Done(Var(input[pos..end]), end)
  {
    Mismatch(input, pos, "true", 0);
    Mismatch(input, pos, "false", 0);
    Mismatch(input, pos, "nan", 0);
    Mismatch(input, pos, "inf", 0);
    VariableAtom(input, pos, end);
  }

  /** A text that differs from `t` at offset `k`, in either case, does not start with `t`. */
  lemma Mismatch(input: string, pos: nat, t: string, k: nat)
    requires k < |t| && pos + k < |input|
    requires input[pos + k] != t[k] && Lower(input[pos + k]) != t[k]
    ensures !Matches(input, pos, t) && !MatchesNoCase(input, pos, t)
  {
  }

  /** `true` needs no word boundary: `truex` is the boolean `true` with `x` left over. */
  lemma BooleanNeedsNoBoundary(s: string)
    requires s == "truex"
    ensures ParseAtom(s, 0) == Done(Atom(Boolean(true)), 4)
  {
    assert Matches(s, 0, "true");
  }

  /** Nor does `nan`: the name `nanny` is read as the double `nan` followed by `ny`. */
  lemma NanNeedsNoBoundary(s: string)
    requires s == "nanny"
    ensures ParseAtom(s, 0) == Done(Dbl("nan"), 3)
  {
    assert !Matches(s, 0, "true") && !Matches(s, 0, "false") by {
      assert s[0] != "true"[0] && s[0] != "false"[0];
    }
    assert MantissaEnd(s, Sign(s, 0).1).None?;
    assert MatchesNoCase(s, 0, "nan");
    assert s[0..3] == "nan";
  }

  /** Nor does `import`: the name `important` is read as an import of a library `ant`. */
  lemma ImportNeedsNoBoundary(s: string)
    requires s == "important"
    ensures ParseExpression(Src, s, 0) == Done(MethodCall("import", "ant", []), 9)
  {
    FunctionLiteralNeedsParameters(Src, s, 0, 9);
    ImportantIsAVariable(s);
    OperatorNeeded(s, 0);
    ImportOfAnt(s);
    ImportBeforeMethodCall(Src, s, 0);
  }

  lemma ImportOfAnt(s: string)
    requires s == "important"
    ensures ParseImport(s, 0) == Done(MethodCall("import", "ant", []), 9)
  {
    assert Matches(s, 0, "import");
    SpanExact(Space, s, 6, 6);
    SpanExact(Alpha, s, 6, 9);
    assert s[6..9] == "ant";
  }

  lemma ImportantIsAVariable(s: string)
    requires s == "important"
    ensures ParseAtom(s, 0) == Done(Var(s), 9)
  {
    assert s[0..9] == s;
    Mismatch(s, 0, "true", 0);
    Mismatch(s, 0, "false", 0);
    Mismatch(s, 0, "nan", 0);
    Mismatch(s, 0, "inf", 1);
    VariableAtom(s, 0, 9);
  }

  /** An atom that ends the text is not the left operand of a binary operation. */
  lemma OperatorNeeded(input: string, pos: nat)
    requires pos <= |input|
    requires ParseAtom(input, pos).Done? && ParseAtom(input, pos).pos == |input|
    ensures ParseBinaryOperation(input, pos).Fail?
  {
  }

  /** When neither a function literal, a binary operation nor a tuple matches, an
      `import` is preferred to a method call. */
  lemma ImportBeforeMethodCall(d: Dialect, input: string, pos: nat)
    requires pos < |input| && input[pos] != '['
    requires d == Src
    requires ParseFunctionLiteral(d, input, pos).Fail? && ParseBinaryOperation(input, pos).Fail?
    requires ParseImport(input, pos).Done?
    ensures ParseExpression(d, input, pos) == ParseImport(input, pos)
  {
    assert ParseTuple(d, input, pos).Fail?;
  }

  // ------------------------------------------------------------- composition

  /** Every `[a, b] = e` parsed is `[`, a name list, `]`, spaces, `=`, spaces and an expression. */
  lemma TupleAssignmentParts(d: Dialect, input: string, pos: nat)
    requires pos <= |input| && ParseTupleAssignment(d, input, pos).Done?
    ensures
      var r := ParseTupleAssignment(d, input, pos);
      var names := ParseIdentifierList(input, pos + 1);
      At(input, pos, '[') && r.value.names == names.value && At(input, names.pos, ']') &&
      (var eq := Skip0(Space, input, names.pos + 1);
       At(input, eq, '=') && ParseExpression(d, input, Skip0(Space, input, eq + 1)) == Done(r.value.value, r.pos))
  {
  }

  /** Conversely, `[` names `]` `=` followed by an expression make a tuple assignment of
      those names and that expression, or fail or cut as the expression does. */
  lemma TupleAssignmentAt(d: Dialect, input: string, pos: nat, q3: nat)
    requires pos < |input| && input[pos] == '['
    requires At(input, ParseIdentifierList(input, pos + 1).pos, ']')
    requires At(input, Skip0(Space, input, ParseIdentifierList(input, pos + 1).pos + 1), '=')
    requires Skip0(Space, input, Skip0(Space, input, ParseIdentifierList(input, pos + 1).pos + 1) + 1) == q3
    ensures ParseTupleAssignment(d, input, pos) ==
      match ParseExpression(d, input, q3)
      case Done(e, q2) => Done(TupleAssignment(ParseIdentifierList(input, pos + 1).value, e), q2)
      case Fail => Fail
      case Cut => Cut
  {
  }

  /** Every `name = e` declaration parsed is a name, spaces, `=`, spaces and an expression. */
  lemma DeclarationParts(d: Dialect, input: string, pos: nat)
    requires pos <= |input| && ParseVariableDeclaration(d, input, pos).Done?
    ensures
      var r := ParseVariableDeclaration(d, input, pos);
      var name := ParseIdentifier(input, pos);
      name.Done? && r.value.name == name.value &&
      (var eq := Skip0(Space, input, name.pos);
       At(input, eq, '=') && ParseExpression(d, input, Skip0(Space, input, eq + 1)) == Done(r.value.value, r.pos))
  {
  }

  /** An assignment is parsed from the same parts as a declaration. */
  lemma AssignmentParts(d: Dialect, input: string, pos: nat)
    requires pos <= |input| && ParseAssignment(d, input, pos).Done?
    ensures
      var r := ParseAssignment(d, input, pos);
      var name := ParseIdentifier(input, pos);
      name.Done? && r.value.name == name.value &&
      (var eq := Skip0(Space, input, name.pos);
       At(input, eq, '=') && ParseExpression(d, input, Skip0(Space, input, eq + 1)) == Done(r.value.value, r.pos))
  {
  }

  /** `import name` yields the method call `import.name()`. */
  lemma ImportAt(input: string, pos: nat, name: string, q: nat)
    requires pos <= |input| && Matches(input, pos, "import")
    requires ParseIdentifier(input, Skip0(Space, input, pos + 6)) == Done(name, q)
    ensures ParseImport(input, pos) == Done(MethodCall("import", name, []), q)
  {
  }

  /** Every method call parsed is a receiver, spaces, `.`, a member, spaces and a
      parenthesised argument list separated by `space0 "," space0`. */
  lemma MethodCallParts(d: Dialect, input: string, pos: nat)
    requires pos <= |input| && ParseMethodCall(d, input, pos).Done?
    ensures
      var r := ParseMethodCall(d, input, pos);
      var receiver := ParseIdentifier(input, pos);
      receiver.Done? && r.value.receiver == receiver.value &&
      (var dot := Skip0(Space, input, receiver.pos);
       At(input, dot, '.') &&
       (var member := ParseIdentifier(input, dot + 1);
        member.Done? && r.value.member == member.value &&
        ParseDelimitedList(d, '(', SpaceComma, ')', input, Skip0(Space, input, member.pos)) == Done(r.value.args, r.pos)))
  {
  }

  /** Conversely, a receiver, `.`, a member and a parenthesised argument list make the
      method call `receiver.member(args)`, or fail or cut as the argument list does. */
  lemma MethodCallAt(d: Dialect, input: string, pos: nat, q3: nat)
    requires pos <= |input| && ParseIdentifier(input, pos).Done?
    requires At(input, Skip0(Space, input, ParseIdentifier(input, pos).pos), '.')
    requires ParseIdentifier(input, Skip0(Space, input, ParseIdentifier(input, pos).pos) + 1).Done?
    requires q3 == Skip0(Space, input, ParseIdentifier(input, Skip0(Space, input, ParseIdentifier(input, pos).pos) + 1).pos)
    ensures ParseMethodCall(d, input, pos) ==
      match ParseDelimitedList(d, '(', SpaceComma, ')', input, q3)
      case Done(args, q) =>
        Done(MethodCall(ParseIdentifier(input, pos).value,
                        ParseIdentifier(input, Skip0(Space, input, ParseIdentifier(input, pos).pos) + 1).value, args), q)
      case Fail => Fail
      case Cut => Cut
  {
  }

  /** A successful expression parse is the result of one of its alternatives. */
  lemma ExpressionAlternatives(d: Dialect, input: string, pos: nat)
    requires pos <= |input| && ParseExpression(d, input, pos).Done?
    ensures
      var r := ParseExpression(d, input, pos);
      (d.HasFunctionLiteral() && r == ParseFunctionLiteral(d, input, pos)) ||
      r == ParseBinaryOperation(input, pos) || r == ParseTuple(d, input, pos) ||
      (d.HasMethodCall() && (r == ParseImport(input, pos) || r == ParseMethodCall(d, input, pos))) ||
      (d.HasFunctionCall() && r == ParseFunctionCall(d, input, pos)) ||
      r == ParseAtom(input, pos)
  {
  }

  /** A successful statement parse is the result of one of its alternatives. */
  lemma StatementAlternatives(d: Dialect, input: string, pos: nat)
    requires pos <= |input| && ParseStatement(d, input, pos).Done?
    ensures
      var r := ParseStatement(d, input, pos);
      r == ParseVariableDeclaration(d, input, pos) ||
      (d.HasAllStatements() &&
       (r == ParseTupleAssignment(d, input, pos) || r == ParseFunctionDefinition(d, input, pos) ||
        r == ParseFunctionCallStatement(d, input, pos)))
  {
  }

  /** A parameter is a name, then `=` and an expression when they follow (the default
      value); without them, or when no expression follows the `=`, the name alone. */
  lemma ParameterParts(d: Dialect, input: string, pos: nat)
    requires pos <= |input| && ParseParameter(d, input, pos).Done?
    ensures
      var r := ParseParameter(d, input, pos);
      var q := ParseIdentifier(input, pos).pos;
      (r.value.defaultValue.Some? <==> At(input, q, '=') && ParseExpression(d, input, q + 1).Done?)
      && (r.value.defaultValue.Some? ==> ParseExpression(d, input, q + 1) == Done(r.value.defaultValue.value, r.pos))
      && (r.value.defaultValue.None? ==> r.pos == q)
  {
  }
}
