/**
 * The stand-alone method-call parser of src/parser/ttt.rs: `obj.method(arg, arg)`
 * with no whitespace around `.` and `(`, arguments separated by exactly `", "`,
 * each a digit run or a double-quoted run of letters.
 *
 * Converting a digit run with `parse().unwrap()` panics when the value does not fit
 * in an `i64`; the panic is an explicit outcome here.
 */
module Ttt {
  import opened Text
  import opened Ast

  /** Like `PResult`, with the panic of `unwrap` as a third outcome that every
      combinator passes straight up. */
  datatype Parse<+T> = Parsed(value: T, pos: nat) | Rejected | Panicked

  /** `parse_expression`: a digit run as an `Integer`, else optional spaces and a
      quoted letters-only string. */
  function ParseArgument(input: string, pos: nat): (r: Parse<Expression>)
    requires pos <= |input|
    ensures r.Parsed? ==> pos < r.pos <= |input|
    ensures r.Panicked? <==> pos < |input| && IsDigit(input[pos]) && DigitsValue(input, pos, pos + Span(Digit, input, pos)) > MaxI64
    ensures r.Parsed? && pos < |input| && IsDigit(input[pos]) ==>
      r.pos == pos + Span(Digit, input, pos) && r.value == Int(DigitsValue(input, pos, r.pos))
    ensures r.Parsed? && !(pos < |input| && IsDigit(input[pos])) ==>
      r.value.Atom? && r.value.atom.String? && |r.value.atom.text| > 0 && AllIn(Alpha, r.value.atom.text)
      && pos + |r.value.atom.text| + 2 <= r.pos
      && input[r.pos - 1] == Quote && input[r.pos - 2 - |r.value.atom.text|] == Quote
  {
    var digits := Take1(Digit, input, pos);
    if digits.Done? then
      var v := DigitsValue(input, pos, digits.pos);
      if v <= MaxI64 then Parsed(Int(v), digits.pos) else Panicked
    else
      var q0 := Skip0(Space, input, pos);
      if !(q0 < |input| && input[q0] == Quote) then Rejected
      else
        var letters := Take1(Alpha, input, q0 + 1);
        if letters.Done? && letters.pos < |input| && input[letters.pos] == Quote then
          Parsed(Atom(String(letters.value)), letters.pos + 1)
        else Rejected
  }

  /** An argument that starts with a digit is the whole digit run as an `Integer`
      when its value fits in an `i64`, and a panic otherwise; it is never rejected. */
  lemma IntegerArgument(input: string, pos: nat)
    requires pos < |input| && IsDigit(input[pos])
    ensures
      var end := pos + Span(Digit, input, pos);
      ParseArgument(input, pos) ==
        if DigitsValue(input, pos, end) <= MaxI64 then Parsed(Int(DigitsValue(input, pos, end)), end) else Panicked
  {
    var end := pos + Span(Digit, input, pos);
    assert Take1(Digit, input, pos) == Done(input[pos..end], end);
  }

  /** At `q`: `"`, one or more letters, `"`. */
  predicate QuotedLetters(input: string, q: nat)
    requires q <= |input|
  {
    q < |input| && input[q] == Quote && 0 < Span(Alpha, input, q + 1)
    && q + 1 + Span(Alpha, input, q + 1) < |input| && input[q + 1 + Span(Alpha, input, q + 1)] == Quote
  }

  /** Any other argument is accepted exactly on spaces, `"`, one or more letters, `"`,
      and is the string of those letters. */
  lemma StringArgument(input: string, pos: nat)
    requires pos <= |input| && !(pos < |input| && IsDigit(input[pos]))
    ensures
      var r, q := ParseArgument(input, pos), Skip0(Space, input, pos);
      (r.Parsed? <==> QuotedLetters(input, q))
      && (r.Parsed? ==>
        r == Parsed(Atom(String(input[q + 1..q + 1 + Span(Alpha, input, q + 1)])), q + 2 + Span(Alpha, input, q + 1)))
  {
    var q := Skip0(Space, input, pos);
    if !(q < |input| && input[q] == Quote) {
      NoOpeningQuote(input, pos);
    } else {
      var n := Span(Alpha, input, q + 1);
      if n == 0 {
        NoLetters(input, pos, q);
      } else {
        Letters(input, pos, q, n);
      }
    }
  }

  /** No `"` after the spaces: rejected. */
  lemma NoOpeningQuote(input: string, pos: nat)
    requires pos <= |input| && !(pos < |input| && IsDigit(input[pos]))
    requires !(Skip0(Space, input, pos) < |input| && input[Skip0(Space, input, pos)] == Quote)
    ensures ParseArgument(input, pos) == Rejected && !QuotedLetters(input, Skip0(Space, input, pos))
  {
  }

  /** `"` with no letter after it: rejected. */
  lemma NoLetters(input: string, pos: nat, q: nat)
    requires pos <= |input| && !(pos < |input| && IsDigit(input[pos]))
    requires q == Skip0(Space, input, pos) && q < |input| && input[q] == Quote && Span(Alpha, input, q + 1) == 0
    ensures ParseArgument(input, pos) == Rejected && !QuotedLetters(input, Skip0(Space, input, pos))
  {
    assert Take1(Alpha, input, q + 1) == Fail;
  }

  /** `"` and letters: read exactly when a closing `"` follows them. */
  lemma Letters(input: string, pos: nat, q: nat, n: nat)
    requires pos <= |input| && !(pos < |input| && IsDigit(input[pos]))
    requires q == Skip0(Space, input, pos) && q < |input| && input[q] == Quote
    requires n == Span(Alpha, input, q + 1) && n > 0
    ensures ParseArgument(input, pos) ==
      if q + 1 + n < |input| && input[q + 1 + n] == Quote then Parsed(Atom(String(input[q + 1..q + 1 + n])), q + 2 + n)
      else Rejected
    ensures
      var r, q := ParseArgument(input, pos), Skip0(Space, input, pos);
      (r.Parsed? <==> QuotedLetters(input, q))
      && (r.Parsed? ==>
        r == Parsed(Atom(String(input[q + 1..q + 1 + Span(Alpha, input, q + 1)])), q + 2 + Span(Alpha, input, q + 1)))
  {
    assert Take1(Alpha, input, q + 1) == Done(input[q + 1..q + 1 + n], q + 1 + n);
  }

  /** A string argument's text is the characters between its quotes, which follow
      optional spaces. */
  lemma StringArgumentText(input: string, pos: nat)
    requires pos <= |input| && ParseArgument(input, pos).Parsed? && !(pos < |input| && IsDigit(input[pos]))
    ensures
      var r := ParseArgument(input, pos);
      var text := r.value.atom.text;
      pos + |text| + 2 <= r.pos <= |input| && text == input[r.pos - 1 - |text|..r.pos - 1]
      && RunOf(Space, input, pos, r.pos - 2 - |text|)
  {
  }

  /** `separated_list0(tag(", "), parse_expression)`: empty when the first argument is
      rejected; afterwards a separator counts only when an argument follows it. */
  function ParseArguments(input: string, pos: nat): (r: Parse<seq<Expression>>)
    requires pos <= |input|
    ensures r.Parsed? ==> pos <= r.pos <= |input|
    ensures ParseArgument(input, pos).Rejected? ==> r == Parsed([], pos)
    ensures ParseArgument(input, pos).Panicked? ==> r.Panicked?
    ensures r.Parsed? && ParseArgument(input, pos).Parsed? ==>
      |r.value| > 0 && r.value[0] == ParseArgument(input, pos).value
  {
    match ParseArgument(input, pos)
    case Rejected => Parsed([], pos)
    case Panicked => Panicked
    case Parsed(e, q) => ParseArgumentsTail(input, q, [e])
  }

  /** The rest of the list after the arguments already in `acc`: `", "` and an argument,
      as long as both are there. */
  function ParseArgumentsTail(input: string, pos: nat, acc: seq<Expression>): (r: Parse<seq<Expression>>)
    requires pos <= |input|
    decreases |input| - pos
    ensures r.Parsed? ==> pos <= r.pos <= |input| && |r.value| >= |acc| && r.value[..|acc|] == acc
    ensures Matches(input, pos, ", ") && ParseArgument(input, pos + 2).Panicked? ==> r.Panicked?
  {
    if !Matches(input, pos, ", ") then Parsed(acc, pos)
    else
      match ParseArgument(input, pos + 2)
      case Rejected => Parsed(acc, pos)
      case Panicked => Panicked
      case Parsed(e, q) =>
        var r := ParseArgumentsTail(input, q, acc + [e]);
        assert r.Parsed? ==> r.value[..|acc|] == (acc + [e])[..|acc|];
        r
  }

  /** `args` are the arguments read from `pos` to `end`, each after exactly `", "`. */
  predicate SeparatedFrom(input: string, pos: nat, args: seq<Expression>, end: nat)
    decreases |args|
  {
    pos <= end <= |input| &&
    if args == [] then end == pos
    else
      Matches(input, pos, ", ") && ParseArgument(input, pos + 2).Parsed?
      && ParseArgument(input, pos + 2).value == args[0]
      && SeparatedFrom(input, ParseArgument(input, pos + 2).pos, args[1..], end)
  }

  /** The list stops at `end`: no `", "` there, or no argument after it. */
  predicate ListEnds(input: string, end: nat) {
    !Matches(input, end, ", ") || ParseArgument(input, end + 2).Rejected?
  }

  /** Every result of the tail: the arguments read, each after `", "`, up to where the
      list stops. */
  lemma {:induction false} ArgumentsTailParts(input: string, pos: nat, acc: seq<Expression>)
    requires pos <= |input| && ParseArgumentsTail(input, pos, acc).Parsed?
    decreases |input| - pos
    ensures
      var r := ParseArgumentsTail(input, pos, acc);
      SeparatedFrom(input, pos, r.value[|acc|..], r.pos) && ListEnds(input, r.pos)
  {
    var r := ParseArgumentsTail(input, pos, acc);
    if Matches(input, pos, ", ") && ParseArgument(input, pos + 2).Parsed? {
      var e, q := ParseArgument(input, pos + 2).value, ParseArgument(input, pos + 2).pos;
      ArgumentsTailParts(input, q, acc + [e]);
      assert r.value[..|acc| + 1] == acc + [e];
      assert r.value[|acc|..][0] == r.value[..|acc| + 1][|acc|];
      assert r.value[|acc|..][1..] == r.value[|acc| + 1..];
    } else {
      assert r.value[|acc|..] == [];
    }
  }

  /** Conversely, arguments each after `", "` up to where the list stops are read by
      the tail. */
  lemma {:induction false} ArgumentsTailAt(input: string, pos: nat, acc: seq<Expression>, args: seq<Expression>, end: nat)
    requires SeparatedFrom(input, pos, args, end) && ListEnds(input, end)
    decreases |args|
    ensures ParseArgumentsTail(input, pos, acc) == Parsed(acc + args, end)
  {
    if args == [] {
      TailStops(input, pos, acc);
      assert acc + args == acc;
    } else {
      var q := ParseArgument(input, pos + 2).pos;
      TailStep(input, pos, acc, args[0], q);
      ArgumentsTailAt(input, q, acc + [args[0]], args[1..], end);
      assert acc + [args[0]] + args[1..] == acc + args;
    }
  }

  /** Where the list stops, the tail reads nothing more. */
  lemma TailStops(input: string, pos: nat, acc: seq<Expression>)
    requires pos <= |input| && ListEnds(input, pos)
    ensures ParseArgumentsTail(input, pos, acc) == Parsed(acc, pos)
  {
  }

  /** `", "` and an argument: the tail goes on after that argument. */
  lemma TailStep(input: string, pos: nat, acc: seq<Expression>, e: Expression, q: nat)
    requires pos <= |input| && Matches(input, pos, ", ") && ParseArgument(input, pos + 2) == Parsed(e, q)
    ensures ParseArgumentsTail(input, pos, acc) == ParseArgumentsTail(input, q, acc + [e])
  {
  }

  /** Every result of `separated_list0`: empty where the first argument is rejected;
      otherwise the first argument, then the others each after `", "`, up to where the
      list stops. */
  lemma ArgumentsParts(input: string, pos: nat)
    requires pos <= |input| && ParseArguments(input, pos).Parsed?
    ensures
      var r, first := ParseArguments(input, pos), ParseArgument(input, pos);
      (r.value == [] <==> first.Rejected?) && (r.value == [] ==> r.pos == pos) &&
      (r.value != [] ==>
        first == Parsed(r.value[0], first.pos) && SeparatedFrom(input, first.pos, r.value[1..], r.pos)
        && ListEnds(input, r.pos))
  {
    var first := ParseArgument(input, pos);
    if first.Parsed? {
      ArgumentsTailParts(input, first.pos, [first.value]);
    }
  }

  /** Conversely, an argument followed by arguments each after `", "`, up to where the
      list stops, is the list of all of them. */
  lemma ArgumentsAt(input: string, pos: nat, first: Expression, q: nat, rest: seq<Expression>, end: nat)
    requires pos <= |input| && ParseArgument(input, pos) == Parsed(first, q)
    requires SeparatedFrom(input, q, rest, end) && ListEnds(input, end)
    ensures ParseArguments(input, pos) == Parsed([first] + rest, end)
  {
    ArgumentsTailAt(input, q, [first], rest, end);
  }

  /** `parse_method_call`: letters, `.`, letters, `(`, the arguments, `)`. */
  function ParseMethodCall(input: string, pos: nat): (r: Parse<Expression>)
    requires pos <= |input|
    ensures r.Parsed? ==> pos < r.pos <= |input| && input[r.pos - 1] == ')'
    ensures r.Parsed? ==>
      r.value.MethodCall? && |r.value.receiver| > 0 && |r.value.member| > 0
      && AllIn(Alpha, r.value.receiver) && AllIn(Alpha, r.value.member)
      && Matches(input, pos, r.value.receiver + "." + r.value.member + "(")
  {
    match Take1(Alpha, input, pos)
    case Done(obj, q1) =>
      if !(q1 < |input| && input[q1] == '.') then Rejected
      else
        (match Take1(Alpha, input, q1 + 1)
         case Done(member, q2) =>
           if !(q2 < |input| && input[q2] == '(') then Rejected
           else
             HeadMatches(input, pos, q1, q2);
             (match ParseArguments(input, q2 + 1)
              case Parsed(args, q3) =>
                if q3 < |input| && input[q3] == ')' then Parsed(MethodCall(obj, member, args), q3 + 1) else Rejected
              case Rejected => Rejected
              case Panicked => Panicked)
         case _ => Rejected)
    case _ => Rejected
  }

  /** Every call read is the letters up to `.` (`alpha1`, which takes them all), the
      letters up to `(`, and the argument list, which ends just before the closing `)`. */
  lemma MethodCallParts(input: string, pos: nat)
    requires pos <= |input| && ParseMethodCall(input, pos).Parsed?
    ensures
      var r, t1 := ParseMethodCall(input, pos), Take1(Alpha, input, pos);
      t1.Done? && t1.pos < |input| && input[t1.pos] == '.' &&
      var t2 := Take1(Alpha, input, t1.pos + 1);
      t2.Done? && t2.pos < |input| && input[t2.pos] == '(' &&
      r.value == MethodCall(t1.value, t2.value, r.value.args) &&
      ParseArguments(input, t2.pos + 1) == Parsed(r.value.args, r.pos - 1) && input[r.pos - 1] == ')'
  {
  }

  /** Conversely, the letters up to `.`, the letters up to `(` and an argument list
      closed by `)` are read as the call of that member on that receiver. */
  lemma MethodCallAt(input: string, pos: nat, args: seq<Expression>, q3: nat)
    requires pos <= |input|
    requires var t1 := Take1(Alpha, input, pos);
      t1.Done? && t1.pos < |input| && input[t1.pos] == '.' &&
      var t2 := Take1(Alpha, input, t1.pos + 1);
      t2.Done? && t2.pos < |input| && input[t2.pos] == '(' &&
      ParseArguments(input, t2.pos + 1) == Parsed(args, q3) && q3 < |input| && input[q3] == ')'
    ensures var t1 := Take1(Alpha, input, pos); var t2 := Take1(Alpha, input, t1.pos + 1);
      ParseMethodCall(input, pos) == Parsed(MethodCall(t1.value, t2.value, args), q3 + 1)
  {
  }

  /** A panic in the argument list is the call's panic. */
  lemma MethodCallPanics(input: string, pos: nat)
    requires pos <= |input|
    requires var t1 := Take1(Alpha, input, pos);
      t1.Done? && t1.pos < |input| && input[t1.pos] == '.' &&
      var t2 := Take1(Alpha, input, t1.pos + 1);
      t2.Done? && t2.pos < |input| && input[t2.pos] == '(' &&
      ParseArguments(input, t2.pos + 1).Panicked?
    ensures ParseMethodCall(input, pos).Panicked?
  {
  }

  /** The text from `pos` to the `(` at `q2` is the receiver, `.`, the member and `(`. */
  lemma HeadMatches(input: string, pos: nat, q1: nat, q2: nat)
    requires pos < q1 < q2 < |input| && input[q1] == '.' && input[q2] == '('
    ensures Matches(input, pos, input[pos..q1] + "." + input[q1 + 1..q2] + "(")
  {
    assert input[pos..q2 + 1] == input[pos..q1] + "." + input[q1 + 1..q2] + "(";
  }

  /** The example of the module's test: a string and an integer argument, in order. */
  lemma ChangeCallExample(s: string)
    requires s == "ta.change(\"Bull\", 22)"
    ensures ParseMethodCall(s, 0) == Parsed(MethodCall("ta", "change", [Atom(String("Bull")), Int(22)]), 21)
  {
    ChangeReceiver(s);
    ChangeMember(s);
    ChangeDelimiters(s);
    ChangeArgumentsExample(s);
  }

  lemma ChangeReceiver(s: string)
    requires s == "ta.change(\"Bull\", 22)"
    ensures Take1(Alpha, s, 0) == Done("ta", 2)
  {
    SpanExact(Alpha, s, 0, 2);
    assert s[0..2] == "ta";
  }

  lemma ChangeMember(s: string)
    requires s == "ta.change(\"Bull\", 22)"
    ensures Take1(Alpha, s, 3) == Done("change", 9)
  {
    SpanExact(Alpha, s, 3, 9);
    assert s[3..9] == "change";
  }

  lemma ChangeDelimiters(s: string)
    requires s == "ta.change(\"Bull\", 22)"
    ensures s[2] == '.' && s[9] == '(' && s[20] == ')'
  {
  }

  lemma ChangeArgumentsExample(s: string)
    requires s == "ta.change(\"Bull\", 22)"
    ensures ParseArguments(s, 10) == Parsed([Atom(String("Bull")), Int(22)], 20)
  {
    StringArgumentExample(s);
    IntegerArgumentExample(s);
    assert Matches(s, 16, ", ");
    assert !Matches(s, 20, ", ");
    assert ParseArgumentsTail(s, 20, [Atom(String("Bull")), Int(22)]) == Parsed([Atom(String("Bull")), Int(22)], 20);
    assert ParseArgumentsTail(s, 16, [Atom(String("Bull"))])
      == ParseArgumentsTail(s, 20, [Atom(String("Bull"))] + [Int(22)]);
    assert [Atom(String("Bull"))] + [Int(22)] == [Atom(String("Bull")), Int(22)];
  }

  lemma StringArgumentExample(s: string)
    requires s == "ta.change(\"Bull\", 22)"
    ensures ParseArgument(s, 10) == Parsed(Atom(String("Bull")), 16)
  {
    SpanExact(Alpha, s, 11, 15);
    assert s[11..15] == "Bull";
  }

  lemma IntegerArgumentExample(s: string)
    requires s == "ta.change(\"Bull\", 22)"
    ensures ParseArgument(s, 18) == Parsed(Int(22), 20)
  {
    SpanExact(Digit, s, 18, 20);
    assert DigitsValue(s, 18, 20) == 22;
  }

  /** Without digits in the argument list nothing can panic. */
  lemma {:induction false} NoDigitsNoPanic(input: string, pos: nat)
    requires pos <= |input|
    requires forall i :: pos <= i < |input| ==> !IsDigit(input[i])
    ensures !ParseArguments(input, pos).Panicked?
  {
    match ParseArgument(input, pos)
    case Rejected =>
    case Panicked =>
    case Parsed(_, q) => NoDigitsNoPanicTail(input, q, [ParseArgument(input, pos).value]);
  }

  lemma {:induction false} NoDigitsNoPanicTail(input: string, pos: nat, acc: seq<Expression>)
    requires pos <= |input|
    requires forall i :: pos <= i < |input| ==> !IsDigit(input[i])
    decreases |input| - pos
    ensures !ParseArgumentsTail(input, pos, acc).Panicked?
  {
    if Matches(input, pos, ", ") {
      match ParseArgument(input, pos + 2)
      case Rejected =>
      case Panicked =>
      case Parsed(e, q) => NoDigitsNoPanicTail(input, q, acc + [e]);
    }
  }
}
