/**
 * The tokenizer of the `genv` calculator (genv/src/ast/lexer.rs): `many0` of
 * "optional whitespace, then an identifier, a number or one of `+ - * / = ;`".
 *
 * A number is a digit run converted with `parse::<i32>().unwrap()`, which panics
 * when the run does not fit in an `i32`; that panic is an explicit outcome here.
 */
module GenvLexer {
  import opened Text

  datatype Token =
    | Identifier(name: string)
    | Number(n: Int32)
    | Plus
    | Minus
    | Multiply
    | Divide
    | Assign
    | Semicolon

  /** A lexer outcome: a value and the position of the rest, a recoverable error, or a panic. */
  datatype Lexed<+T> = Lexed(value: T, pos: nat) | NoMatch | Panics(message: string)

  /** The message of the `unwrap` on a digit run larger than `i32::MAX`. */
  const NumberOverflow := "called `Result::unwrap()` on an `Err` value: ParseIntError { kind: PosOverflow }"

  /** The one-character tokens, in the order `token` tries them. */
  function Symbol(c: char): (t: Option<Token>)
    ensures t.Some? <==> c in "+-*/=;"
    ensures t.Some? ==> !t.value.Identifier? && !t.value.Number?
  {
    if c == '+' then Some(Plus)
    else if c == '-' then Some(Minus)
    else if c == '*' then Some(Multiply)
    else if c == '/' then Some(Divide)
    else if c == '=' then Some(Assign)
    else if c == ';' then Some(Semicolon)
    else None
  }

  /** `token`: skip whitespace, then identifier, number, or a one-character symbol. */
  function NextToken(input: string, pos: nat): (r: Lexed<Token>)
    requires pos <= |input|
    ensures r.Lexed? ==> pos < r.pos <= |input|
    ensures r.Panics? ==> r.message == NumberOverflow
  {
    var q := Skip0(Multispace, input, pos);
    var letters := Take1(Alpha, input, q);
    if letters.Done? then Lexed(Identifier(letters.value), letters.pos)
    else
      var digits := Take1(Digit, input, q);
      if digits.Done? then
        var v := DigitsValue(input, q, digits.pos);
        if v <= MaxI32 then Lexed(Number(v), digits.pos) else Panics(NumberOverflow)
      else if q < |input| && Symbol(input[q]).Some? then Lexed(Symbol(input[q]).value, q + 1)
      else NoMatch
  }

  /** What `token` recognises after the whitespace at `q`: nothing exactly when no
      token starts there; an identifier exactly on a letter, with all the letters; a
      number on a digit, with all the digits, panicking when they exceed `i32::MAX`;
      otherwise one symbol character. */
  lemma TokenMeaning(input: string, pos: nat, q: nat)
    requires pos <= |input| && q == Skip0(Multispace, input, pos)
    ensures NextToken(input, pos).NoMatch? <==>
      q == |input| || !(IsAlpha(input[q]) || IsDigit(input[q]) || input[q] in "+-*/=;")
    ensures NextToken(input, pos).Panics? <==>
      q < |input| && IsDigit(input[q]) && DigitsValue(input, q, q + Span(Digit, input, q)) > MaxI32
    ensures NextToken(input, pos).Lexed? ==>
      var r := NextToken(input, pos);
      q < r.pos && (r.value.Identifier? <==> IsAlpha(input[q]))
      && (r.value.Identifier? ==>
            r.value.name == input[q..r.pos] && AllIn(Alpha, r.value.name) && (r.pos == |input| || !IsAlpha(input[r.pos])))
      && (r.value.Number? ==>
            AllIn(Digit, input[q..r.pos]) && r.value.n == DigitsValue(input, q, r.pos) && (r.pos == |input| || !IsDigit(input[r.pos])))
      && (!r.value.Identifier? && !r.value.Number? ==> r.pos == q + 1 && Symbol(input[q]) == Some(r.value))
  {
  }

  /** `many0(token)` from `pos` on, the tokens so far in `acc`: it stops before the first
      place where no token starts, leaving the whitespace there unconsumed. */
  function TokenizeFrom(input: string, pos: nat, acc: seq<Token>): (r: Lexed<seq<Token>>)
    requires pos <= |input|
    decreases |input| - pos
    ensures !r.NoMatch?
    ensures r.Lexed? ==> pos <= r.pos <= |input|
    ensures r.Lexed? ==> |r.value| >= |acc| && r.value[..|acc|] == acc
  {
    match NextToken(input, pos)
    case NoMatch => Lexed(acc, pos)
    case Panics(m) => Panics(m)
    case Lexed(t, q) =>
      var r := TokenizeFrom(input, q, acc + [t]);
      assert r.Lexed? ==> r.value[..|acc|] == (acc + [t])[..|acc|];
      r
  }

  /** `tokenize`: never a recoverable error; the unrecognised rest is returned alongside. */
  function Tokenize(input: string): (r: Lexed<seq<Token>>)
    ensures !r.NoMatch?
    ensures r.Lexed? ==> r.pos <= |input|
  {
    TokenizeFrom(input, 0, [])
  }

  /** Tokenizing stops exactly where no token starts: the rest, after whitespace, is
      empty or begins with a character no token begins with. */
  lemma {:induction false} StopsAtUnrecognised(input: string, pos: nat, acc: seq<Token>)
    requires pos <= |input|
    decreases |input| - pos
    ensures TokenizeFrom(input, pos, acc).Lexed? ==> NextToken(input, TokenizeFrom(input, pos, acc).pos).NoMatch?
  {
    match NextToken(input, pos)
    case NoMatch =>
    case Panics(_) =>
    case Lexed(t, q) => StopsAtUnrecognised(input, q, acc + [t]);
  }

  // ---------------------------------------------------------------- examples

  /** The example of the lexer's test: `a = 1 + 2;` gives six tokens and no rest. */
  lemma AssignmentExample(s: string)
    requires s == "a = 1 + 2;"
    ensures Tokenize(s) == Lexed([Identifier("a"), Assign, Number(1), Plus, Number(2), Semicolon], 10)
  {
    var t := [Identifier("a"), Assign, Number(1), Plus, Number(2), Semicolon];
    assert [] + [t[0]] == t[..1] && t[..1] + [t[1]] == t[..2] && t[..2] + [t[2]] == t[..3];
    assert t[..3] + [t[3]] == t[..4] && t[..4] + [t[4]] == t[..5] && t[..5] + [t[5]] == t;
    AssignmentHead(s);
    TokenizeStep(s, 0, [], Identifier("a"), 1);
    TokenizeStep(s, 1, t[..1], Assign, 3);
    ExampleToken3(s);
    TokenizeStep(s, 3, t[..2], Number(1), 5);
    ExampleToken5(s);
    TokenizeStep(s, 5, t[..3], Plus, 7);
    ExampleToken7(s);
    TokenizeStep(s, 7, t[..4], Number(2), 9);
    ExampleToken9(s);
    TokenizeStep(s, 9, t[..5], Semicolon, 10);
    ExampleEnd(s, t);
  }

  /** One step of `many0(token)`. */
  lemma TokenizeStep(input: string, pos: nat, acc: seq<Token>, t: Token, q: nat)
    requires pos <= |input| && NextToken(input, pos) == Lexed(t, q)
    ensures TokenizeFrom(input, pos, acc) == TokenizeFrom(input, q, acc + [t])
  {
  }

  /** Any script that opens with `a = ` starts with the tokens `a` and `=`. */
  lemma AssignmentHead(s: string)
    requires |s| >= 4 && s[..4] == "a = "
    ensures NextToken(s, 0) == Lexed(Identifier("a"), 1)
    ensures NextToken(s, 1) == Lexed(Assign, 3)
  {
    assert s[0] == 'a' && s[1] == ' ' && s[2] == '=' && s[3] == ' ';
    LeadingLetter(s);
    SpaceThenAssign(s);
  }

  lemma LeadingLetter(s: string)
    requires |s| >= 2 && s[0] == 'a' && s[1] == ' '
    ensures NextToken(s, 0) == Lexed(Identifier("a"), 1)
  {
    SpanExact(Multispace, s, 0, 0);
    SpanExact(Alpha, s, 0, 1);
    assert s[0..1] == "a";
  }

  lemma SpaceThenAssign(s: string)
    requires |s| >= 4 && s[1] == ' ' && s[2] == '=' && s[3] == ' '
    ensures NextToken(s, 1) == Lexed(Assign, 3)
  {
    SpanExact(Multispace, s, 1, 2);
  }

  lemma ExampleToken3(s: string)
    requires s == "a = 1 + 2;"
    ensures NextToken(s, 3) == Lexed(Number(1), 5)
  {
    SpanExact(Multispace, s, 3, 4);
    SpanExact(Digit, s, 4, 5);
    assert DigitsValue(s, 4, 5) == 1;
  }

  lemma ExampleToken5(s: string)
    requires s == "a = 1 + 2;"
    ensures NextToken(s, 5) == Lexed(Plus, 7)
  {
    SpanExact(Multispace, s, 5, 6);
  }

  lemma ExampleToken7(s: string)
    requires s == "a = 1 + 2;"
    ensures NextToken(s, 7) == Lexed(Number(2), 9)
  {
    SpanExact(Multispace, s, 7, 8);
    SpanExact(Digit, s, 8, 9);
    assert DigitsValue(s, 8, 9) == 2;
  }

  lemma ExampleToken9(s: string)
    requires s == "a = 1 + 2;"
    ensures NextToken(s, 9) == Lexed(Semicolon, 10)
  {
    SpanExact(Multispace, s, 9, 9);
  }

  lemma ExampleEnd(s: string, t: seq<Token>)
    requires s == "a = 1 + 2;"
    ensures TokenizeFrom(s, 10, t) == Lexed(t, 10)
  {
    SpanExact(Multispace, s, 10, 10);
  }

  /** Identifiers are tried first and stop at the first digit: `a1` is two tokens. */
  lemma LetterThenDigit(s: string)
    requires s == "a1"
    ensures Tokenize(s) == Lexed([Identifier("a"), Number(1)], 2)
  {
    SpanExact(Multispace, s, 0, 0);
    SpanExact(Alpha, s, 0, 1);
    assert s[0..1] == "a";
    SpanExact(Multispace, s, 1, 1);
    SpanExact(Digit, s, 1, 2);
    assert DigitsValue(s, 1, 2) == 1;
    SpanExact(Multispace, s, 2, 2);
    LetterThenDigitChain(s);
  }

  lemma LetterThenDigitChain(s: string)
    requires |s| == 2
    requires NextToken(s, 0) == Lexed(Identifier("a"), 1) && NextToken(s, 1) == Lexed(Number(1), 2)
    requires NextToken(s, 2) == NoMatch
    ensures Tokenize(s) == Lexed([Identifier("a"), Number(1)], 2)
  {
    var t := [Identifier("a"), Number(1)];
    assert t[..1] + [Number(1)] == t && [] + [Identifier("a")] == t[..1];
    assert TokenizeFrom(s, 2, t) == Lexed(t, 2);
    assert TokenizeFrom(s, 1, t[..1]) == TokenizeFrom(s, 2, t);
    assert TokenizeFrom(s, 0, []) == TokenizeFrom(s, 1, t[..1]);
  }
}
