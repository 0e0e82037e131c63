/**
 * The atom and binary-operation parser of genv/src/ok.rs. It differs from the
 * `src/` parser in one place: `parse_double` first refuses any input whose rest
 * contains no `.` at all, so that a digit run with no dot after it reaches `i64`
 * and becomes an `Integer`. The check looks at the whole rest of the input, not at
 * the literal, so a digit run followed anywhere later by a `.` is still a `Double`.
 * The other alternatives, and the operator parser, are those of module Parser.
 */
module OkParser {
  import opened Text
  import opened Ast
  import opened Parser
  import opened ParserFacts

  /** `parse_double` with its guard: `input.contains(".")`, then nom's `double`. */
  function GuardedDouble(input: string, pos: nat): (r: PResult<Atom>)
    requires pos <= |input|
    ensures Advances(r, input, pos)
    ensures r.Done? || r.Cut? ==> '.' in input[pos..]
    ensures '.' in input[pos..] ==> r == ParseDouble(input, pos)
  {
    if '.' !in input[pos..] then Fail else ParseDouble(input, pos)
  }

  /** `parse_atom`'s choice: boolean, guarded double, integer, string, variable. */
  function AtomValue(input: string, pos: nat): (r: PResult<Atom>)
    requires pos <= |input|
    ensures Advances(r, input, pos)
    ensures '.' in input[pos..] ==> r == ParseAtomValue(input, pos)
  {
    Alt(ParseBoolean(input, pos), Alt(GuardedDouble(input, pos),
      Alt(ParseInteger(input, pos), Alt(ParseString(input, pos), ParseVariable(input, pos)))))
  }

  /** `parse_atom`: the atom as an expression. */
  function AtomAt(input: string, pos: nat): (r: PResult<Expression>)
    requires pos <= |input|
    ensures Advances(r, input, pos)
    ensures r.Done? <==> AtomValue(input, pos).Done?
    ensures r.Done? ==> r.value == Atom(AtomValue(input, pos).value) && r.pos == AtomValue(input, pos).pos
  {
    match AtomValue(input, pos)
    case Done(a, q) => Done(Atom(a), q)
    case Fail => Fail
    case Cut => Cut
  }

  /** `parse_binary_operation`: atom, whitespace, one operator (`parse_binary_operator`,
      the same as module Parser's), whitespace, atom. */
  function BinaryOperationAt(input: string, pos: nat): (r: PResult<Expression>)
    requires pos <= |input|
    ensures Advances(r, input, pos)
    ensures r.Done? ==> r.value.BinaryOperation? && r.value.left.Atom? && r.value.right.Atom?
    ensures r.Done? ==> AtomAt(input, pos).Done?
  {
    match AtomAt(input, pos)
    case Fail => Fail
    case Cut => Cut
    case Done(left, q1) =>
      match ParseBinaryOperator(input, Skip0(Multispace, input, q1))
      case Done(op, q2) =>
        (match AtomAt(input, Skip0(Multispace, input, q2))
         case Done(right, q3) => Done(BinaryOperation(op, left, right), q3)
         case Fail => Fail
         case Cut => Cut)
      case _ => Fail
  }

  // ---------------------------------------------------------------- consequences

  /** With no `.` in the rest of the input, a number `i64` accepts is an `Integer`. */
  lemma IntegerWithoutDot(input: string, pos: nat)
    requires pos <= |input| && '.' !in input[pos..]
    requires I64(input, pos).Done?
    ensures AtomAt(input, pos) == Done(Atom(Integer(I64(input, pos).value)), I64(input, pos).pos)
  {
    var start := Sign(input, pos).1;
    assert IsDigit(input[start]);
    assert !Matches(input, pos, "true") && !Matches(input, pos, "false") by {
      if start == pos {
        FirstCharMismatch(input, pos, "true");
        FirstCharMismatch(input, pos, "false");
      } else {
        Mismatch(input, pos, "true", 0);
        Mismatch(input, pos, "false", 0);
      }
    }
  }

  /** The `src/` parser never keeps an integer: where this one gives an `Integer` (no
      `.` follows), that one gives a `Double` or stops at a bad exponent; as soon as
      a `.` follows, the two agree. */
  lemma OnlyTheGuardDiffers(input: string, pos: nat)
    requires pos <= |input|
    ensures '.' in input[pos..] ==> AtomAt(input, pos) == ParseAtom(input, pos)
    ensures '.' !in input[pos..] && I64(input, pos).Done? ==>
      AtomAt(input, pos).Done? && AtomAt(input, pos).value.atom.Integer? &&
      (ParseAtom(input, pos).Cut? || (ParseAtom(input, pos).Done? && ParseAtom(input, pos).value.atom.Double?))
  {
    if '.' !in input[pos..] && I64(input, pos).Done? {
      IntegerWithoutDot(input, pos);
      I64ShadowedByDouble(input, pos);
      assert ParseBoolean(input, pos).Fail?;
    }
  }

  // ---------------------------------------------------------------- examples

  /** `main`'s input: `true` is the boolean `true`. */
  lemma TrueIsBoolean(s: string)
    requires s == "true"
    ensures AtomAt(s, 0) == Done(Atom(Boolean(true)), 4)
  {
    assert Matches(s, 0, "true");
  }

  /** A binary operation is its left atom, an operator and its right atom. */
  lemma OperationAt(input: string, pos: nat, left: Expression, q1: nat, op: BinaryOperator, q2: nat,
                    right: Expression, q3: nat)
    requires pos <= |input|
    requires AtomAt(input, pos) == Done(left, q1)
    requires ParseBinaryOperator(input, Skip0(Multispace, input, q1)) == Done(op, q2)
    requires AtomAt(input, Skip0(Multispace, input, q2)) == Done(right, q3)
    ensures BinaryOperationAt(input, pos) == Done(BinaryOperation(op, left, right), q3)
  {
  }

  /** The two numbers of `1 + 2`: no `.` follows either, so both stay integers. */
  lemma SumOperands(s: string)
    requires s == "1 + 2"
    ensures AtomAt(s, 0) == Done(Int(1), 1) && AtomAt(s, 4) == Done(Int(2), 5)
  {
    SpanExact(Digit, s, 0, 1);
    SpanExact(Digit, s, 4, 5);
    assert I64(s, 0) == Done(1, 1);
    assert I64(s, 4) == Done(2, 5);
    assert '.' !in s[0..] && '.' !in s[4..];
    IntegerWithoutDot(s, 0);
    IntegerWithoutDot(s, 4);
  }

  /** The ` + ` of `1 + 2`. */
  lemma SumOperator(s: string)
    requires s == "1 + 2"
    ensures Skip0(Multispace, s, 1) == 2 && ParseBinaryOperator(s, 2) == Done(Plus, 3)
    ensures Skip0(Multispace, s, 3) == 4
  {
    SpanExact(Multispace, s, 1, 2);
    SpanExact(Multispace, s, 3, 4);
  }

  /** In `1 + 2` no `.` follows either number: both stay integers. */
  lemma SumOfIntegers(s: string)
    requires s == "1 + 2"
    ensures BinaryOperationAt(s, 0) == Done(BinaryOperation(Plus, Int(1), Int(2)), 5)
  {
    SumOperands(s);
    SumOperator(s);
    OperationAt(s, 0, Int(1), 1, Plus, 3, Int(2), 5);
  }

  /** In `1 + 2.5` the `.` of the second number lets the first through the guard:
      `1` becomes a `Double`. */
  lemma DotLaterMakesADouble(s: string)
    requires s == "1 + 2.5"
    ensures AtomAt(s, 0) == Done(Dbl("1"), 1)
  {
    assert s[5] == '.' && '.' in s[0..];
    SpanExact(Digit, s, 0, 1);
    assert MantissaEnd(s, 0) == Some(1);
    assert RecognizeFloat(s, 0) == Done(s[0..1], 1);
    assert s[0..1] == "1";
    FirstCharMismatch(s, 0, "true");
    FirstCharMismatch(s, 0, "false");
  }

  /** The second number of `1 + 2.5`, a `Double` as expected. */
  lemma SecondNumberIsADouble(s: string)
    requires s == "1 + 2.5"
    ensures AtomAt(s, 4) == Done(Dbl("2.5"), 7)
  {
    assert s[5] == '.' && '.' in s[4..];
    SpanExact(Digit, s, 4, 5);
    SpanExact(Digit, s, 6, 7);
    assert MantissaEnd(s, 4) == Some(7);
    assert RecognizeFloat(s, 4) == Done(s[4..7], 7);
    assert s[4..7] == "2.5";
    FirstCharMismatch(s, 4, "true");
    FirstCharMismatch(s, 4, "false");
  }

  /** So `1 + 2.5` adds two doubles, not an integer and a double. */
  lemma MixedSumIsAllDouble(s: string)
    requires s == "1 + 2.5"
    ensures BinaryOperationAt(s, 0) == Done(BinaryOperation(Plus, Dbl("1"), Dbl("2.5")), 7)
  {
    DotLaterMakesADouble(s);
    SecondNumberIsADouble(s);
    MixedOperator(s);
    OperationAt(s, 0, Dbl("1"), 1, Plus, 3, Dbl("2.5"), 7);
  }

  /** The ` + ` of `1 + 2.5`. */
  lemma MixedOperator(s: string)
    requires s == "1 + 2.5"
    ensures Skip0(Multispace, s, 1) == 2 && ParseBinaryOperator(s, 2) == Done(Plus, 3)
    ensures Skip0(Multispace, s, 3) == 4
  {
    SpanExact(Multispace, s, 1, 2);
    SpanExact(Multispace, s, 3, 4);
  }
}
